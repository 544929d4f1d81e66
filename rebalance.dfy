/**
 * `adjustTpPercentages` of src/services/app.ts: after a take-profit percent
 * is edited, the unlocked targets are rescaled so that, with the locked
 * ones, they sell 100 %, and rounded to whole percents, the last unlocked
 * target taking the rounding remainder.
 *
 * The source filters the unlocked targets into a list and walks that list;
 * here the same walk visits the target positions in order and skips the
 * locked ones, so no list of positions is needed.
 */
module Rebalance {
  import opened Common
  import opened Types
  import opened Utils
  import opened TradeStore

  // ---------------------------------------------------------------------
  // Counts and sums over the locked and the unlocked targets
  // ---------------------------------------------------------------------

  /** The number of unlocked targets below position `n`. */
  function UnlockedCount(ts: seq<TargetInput>, n: nat): (c: nat)
    requires n <= |ts|
    ensures c <= n
  {
    if n == 0 then 0 else UnlockedCount(ts, n - 1) + if ts[n - 1].isLocked then 0 else 1
  }

  /** The sum of the percents of the locked targets below `n`. */
  function LockedUpTo(ts: seq<TargetInput>, ps: seq<real>, n: nat): real
    requires n <= |ts| == |ps|
  {
    if n == 0 then 0.0 else LockedUpTo(ts, ps, n - 1) + if ts[n - 1].isLocked then ps[n - 1] else 0.0
  }

  /** The sum of the percents of the unlocked targets below `n`. */
  function UnlockedUpTo(ts: seq<TargetInput>, ps: seq<real>, n: nat): real
    requires n <= |ts| == |ps|
  {
    if n == 0 then 0.0 else UnlockedUpTo(ts, ps, n - 1) + if ts[n - 1].isLocked then 0.0 else ps[n - 1]
  }

  /** The position of the last unlocked target below `n`, or -1 when there is none. */
  function LastUnlocked(ts: seq<TargetInput>, n: nat): (k: int)
    requires n <= |ts|
    ensures -1 <= k < n
    ensures k >= 0 ==> !ts[k].isLocked
    ensures forall i :: k < i < n ==> ts[i].isLocked
    ensures k < 0 <==> UnlockedCount(ts, n) == 0
  {
    if n == 0 then -1 else if !ts[n - 1].isLocked then n - 1 else LastUnlocked(ts, n - 1)
  }

  /** Every unlocked percent is a whole number. */
  predicate UnlockedIntegers(ts: seq<TargetInput>, ps: seq<real>)
    requires |ts| == |ps|
  {
    forall i :: 0 <= i < |ts| && !ts[i].isLocked ==> IsInteger(ps[i])
  }

  /** The same lock flags, position by position. */
  predicate SameLocks(ts: seq<TargetInput>, us: seq<TargetInput>)
  {
    |ts| == |us| && forall i :: 0 <= i < |ts| ==> ts[i].isLocked == us[i].isLocked
  }

  lemma SumPrefixStep(ps: seq<real>, n: nat)
    requires 0 < n <= |ps|
    ensures Sum(ps[..n]) == Sum(ps[..n - 1]) + ps[n - 1]
  {
    assert ps[..n][..n - 1] == ps[..n - 1];
  }

  /** Every percent is either locked or unlocked: the sum splits in two. */
  lemma {:induction false} SumSplits(ts: seq<TargetInput>, ps: seq<real>, n: nat)
    requires n <= |ts| == |ps|
    ensures Sum(ps[..n]) == LockedUpTo(ts, ps, n) + UnlockedUpTo(ts, ps, n)
  {
    if n > 0 {
      SumSplits(ts, ps, n - 1);
      SumPrefixStep(ps, n);
    }
  }

  /** The locked sum reads only the lock flags and the locked percents. */
  lemma {:induction false} LockedUpToSame(ts: seq<TargetInput>, us: seq<TargetInput>, ps: seq<real>, qs: seq<real>, n: nat)
    requires SameLocks(ts, us) && n <= |ts| == |ps| == |qs|
    requires forall i :: 0 <= i < |ts| && ts[i].isLocked ==> ps[i] == qs[i]
    ensures LockedUpTo(ts, ps, n) == LockedUpTo(us, qs, n)
  {
    if n > 0 {
      LockedUpToSame(ts, us, ps, qs, n - 1);
    }
  }

  /** The unlocked sum and count read only the lock flags and the unlocked percents. */
  lemma {:induction false} UnlockedUpToSame(ts: seq<TargetInput>, us: seq<TargetInput>, ps: seq<real>, qs: seq<real>, n: nat)
    requires SameLocks(ts, us) && n <= |ts| == |ps| == |qs|
    requires forall i :: 0 <= i < |ts| && !ts[i].isLocked ==> ps[i] == qs[i]
    ensures UnlockedUpTo(ts, ps, n) == UnlockedUpTo(us, qs, n)
    ensures UnlockedCount(ts, n) == UnlockedCount(us, n)
  {
    if n > 0 {
      UnlockedUpToSame(ts, us, ps, qs, n - 1);
    }
  }

  /** Past the last unlocked target only locked ones follow: the unlocked sum stays put. */
  lemma {:induction false} UnlockedUpToLockedTail(ts: seq<TargetInput>, ps: seq<real>, m: nat, n: nat)
    requires m <= n <= |ts| == |ps|
    requires forall i :: m <= i < n ==> ts[i].isLocked
    ensures UnlockedUpTo(ts, ps, n) == UnlockedUpTo(ts, ps, m)
  {
    if n > m {
      UnlockedUpToLockedTail(ts, ps, m, n - 1);
    }
  }

  // ---------------------------------------------------------------------
  // Scaling and rounding
  // ---------------------------------------------------------------------

  /**
   * The new value of one unlocked percent: an equal share of the target
   * when the unlocked percents sum to zero (if the target is positive),
   * otherwise scaled by target / current sum.
   */
  function ScaledValue(p: real, target: real, current: real, count: nat): real
  {
    if current == 0.0 then (if target > 0.0 && count > 0 then target / (count as real) else p)
    else p * (target / current)
  }

  /** The percents after the rescaling step: locked ones kept, unlocked ones scaled. */
  function Scaled(ts: seq<TargetInput>, ps: seq<real>, target: real, current: real): (sc: seq<real>)
    requires |ts| == |ps|
    ensures |sc| == |ps|
    ensures forall i :: 0 <= i < |ps| ==>
      sc[i] == if ts[i].isLocked then ps[i] else ScaledValue(ps[i], target, current, UnlockedCount(ts, |ts|))
  {
    var count := UnlockedCount(ts, |ts|);
    seq(|ps|, i requires 0 <= i < |ps| => if ts[i].isLocked then ps[i] else ScaledValue(ps[i], target, current, count))
  }

  lemma ScaledStep(s: real, p: real, f: real)
    ensures s * f + p * f == (s + p) * f
  {
  }

  /** Scaling every unlocked percent by `f` scales their sum by `f`. */
  lemma {:induction false} ScaledUpTo(ts: seq<TargetInput>, ps: seq<real>, target: real, current: real, n: nat)
    requires n <= |ts| == |ps| && current != 0.0
    ensures UnlockedUpTo(ts, Scaled(ts, ps, target, current), n) == UnlockedUpTo(ts, ps, n) * (target / current)
  {
    if n > 0 {
      ScaledUpTo(ts, ps, target, current, n - 1);
      ScaledStep(UnlockedUpTo(ts, ps, n - 1), ps[n - 1], target / current);
    }
  }

  /** Where every unlocked target has the same percent, their sum is count times that percent. */
  lemma {:induction false} SharedUpTo(ts: seq<TargetInput>, r: seq<real>, share: real, n: nat)
    requires n <= |ts| == |r|
    requires forall i :: 0 <= i < |ts| && !ts[i].isLocked ==> r[i] == share
    ensures UnlockedUpTo(ts, r, n) == UnlockedCount(ts, n) as real * share
  {
    if n > 0 {
      SharedUpTo(ts, r, share, n - 1);
      var c := UnlockedCount(ts, n - 1);
      if !ts[n - 1].isLocked {
        assert UnlockedCount(ts, n) == c + 1;
        ScaledStep(c as real, 1.0, share);
        assert (c + 1) as real == c as real + 1.0;
      } else {
        assert UnlockedCount(ts, n) == c;
      }
    }
  }

  lemma DivCancel(a: real, b: real)
    requires b != 0.0
    ensures b * (a / b) == a
  {
  }

  /**
   * The rescaling step hits the target exactly: the unlocked percents of
   * the scaled targets sum to `target`, unless they all were zero and the
   * target is not positive (then nothing is rescaled).
   */
  lemma ScaledReachesTarget(ts: seq<TargetInput>, ps: seq<real>, target: real)
    requires |ts| == |ps| && UnlockedCount(ts, |ts|) > 0
    requires UnlockedUpTo(ts, ps, |ts|) != 0.0 || target > 0.0
    ensures UnlockedUpTo(ts, Scaled(ts, ps, target, UnlockedUpTo(ts, ps, |ts|)), |ts|) == target
  {
    var current := UnlockedUpTo(ts, ps, |ts|);
    if current != 0.0 {
      ScaledByFactor(ts, ps, target, current);
    } else {
      ScaledByShare(ts, ps, target);
    }
  }

  lemma ScaledByFactor(ts: seq<TargetInput>, ps: seq<real>, target: real, current: real)
    requires |ts| == |ps| && current == UnlockedUpTo(ts, ps, |ts|) && current != 0.0
    ensures UnlockedUpTo(ts, Scaled(ts, ps, target, current), |ts|) == target
  {
    ScaledUpTo(ts, ps, target, current, |ts|);
    DivCancel(target, current);
  }

  lemma ScaledByShare(ts: seq<TargetInput>, ps: seq<real>, target: real)
    requires |ts| == |ps| && UnlockedCount(ts, |ts|) > 0 && target > 0.0
    ensures UnlockedUpTo(ts, Scaled(ts, ps, target, 0.0), |ts|) == target
  {
    var share := target / UnlockedCount(ts, |ts|) as real;
    var sc := Scaled(ts, ps, target, 0.0);
    assert forall i :: 0 <= i < |ts| && !ts[i].isLocked ==> sc[i] == share;
    SharedUpTo(ts, sc, share, |ts|);
    DivCancel(target, UnlockedCount(ts, |ts|) as real);
  }

  /** With all unlocked percents zero and no positive target, the rescaling changes nothing. */
  lemma ScaledKeepsZeros(ts: seq<TargetInput>, ps: seq<real>, target: real)
    requires |ts| == |ps| && target <= 0.0
    ensures Scaled(ts, ps, target, 0.0) == ps
  {
    var sc := Scaled(ts, ps, target, 0.0);
    assert forall i :: 0 <= i < |ps| ==> sc[i] == ps[i];
  }

  /** The sum of the rounded percents of the unlocked targets below `n`. */
  function RoundedBelow(ts: seq<TargetInput>, sc: seq<real>, n: nat): real
    requires n <= |ts| == |sc|
  {
    if n == 0 then 0.0
    else RoundedBelow(ts, sc, n - 1) + if ts[n - 1].isLocked then 0.0 else RoundHalfUp(sc[n - 1]) as real
  }

  /**
   * The percents after the rounding step: every unlocked percent but the
   * last rounded half away from zero, the last one the rounded remainder
   * of the target; locked percents as they were.
   */
  function Rounded(ts: seq<TargetInput>, sc: seq<real>, target: real): (r: seq<real>)
    requires |ts| == |sc|
    ensures |r| == |sc|
    ensures forall i :: 0 <= i < |sc| ==>
      r[i] == if ts[i].isLocked then sc[i]
              else if i == LastUnlocked(ts, |ts|) then RoundHalfUp(target - RoundedBelow(ts, sc, i)) as real
              else RoundHalfUp(sc[i]) as real
  {
    var last := LastUnlocked(ts, |ts|);
    seq(|sc|, i requires 0 <= i < |sc| =>
      if ts[i].isLocked then sc[i]
      else if i == last then RoundHalfUp(target - RoundedBelow(ts, sc, i)) as real
      else RoundHalfUp(sc[i]) as real)
  }

  // ---------------------------------------------------------------------
  // The operation
  // ---------------------------------------------------------------------

  datatype Plan = NoChange | Rebalanced(percents: seq<real>)

  /** What is left for the unlocked targets once the locked ones are served. */
  function UnlockedTarget(ts: seq<TargetInput>, syn: NumberSyntax): real
  {
    100.0 - LockedUpTo(ts, TargetPercents(ts, syn), |ts|)
  }

  /** The unlocked percents already are whole numbers making up the rest. */
  predicate Balanced(ts: seq<TargetInput>, syn: NumberSyntax)
  {
    var ps := TargetPercents(ts, syn);
    UnlockedUpTo(ts, ps, |ts|) == UnlockedTarget(ts, syn) && UnlockedIntegers(ts, ps)
  }

  /** The new percents of all targets: rescaled, then rounded. */
  function RebalancedPercents(ts: seq<TargetInput>, syn: NumberSyntax): (r: seq<real>)
    ensures |r| == |ts|
  {
    var ps := TargetPercents(ts, syn);
    var target := UnlockedTarget(ts, syn);
    Rounded(ts, Scaled(ts, ps, target, UnlockedUpTo(ts, ps, |ts|)), target)
  }

  /**
   * What the adjustment computes: nothing when the edited target is locked,
   * the locked percents exceed 100, no target is unlocked, or the targets
   * are already balanced; otherwise the new percents of all targets.
   */
  function PlanFor(ts: seq<TargetInput>, changedIndex: Option<int>, syn: NumberSyntax): Plan
  {
    if changedIndex.Some? && 0 <= changedIndex.value < |ts| && ts[changedIndex.value].isLocked then NoChange
    else if UnlockedTarget(ts, syn) < 0.0 || UnlockedCount(ts, |ts|) == 0 || Balanced(ts, syn) then NoChange
    else Rebalanced(RebalancedPercents(ts, syn))
  }

  /** The targets with the new percents; prices and locks as they were. */
  function WithPercents(ts: seq<TargetInput>, ps: seq<real>): (r: seq<TargetInput>)
    requires |ps| == |ts|
    ensures |r| == |ts|
    ensures forall i :: 0 <= i < |ts| ==> r[i] == TargetInput(ts[i].price, Dec(ps[i]), ts[i].isLocked)
  {
    seq(|ts|, i requires 0 <= i < |ts| => TargetInput(ts[i].price, Dec(ps[i]), ts[i].isLocked))
  }

  /** Some percent differs from the one stored, read as a number (the locks never differ). */
  predicate HasChanged(ts: seq<TargetInput>, ps: seq<real>, syn: NumberSyntax)
    requires |ps| == |ts|
  {
    exists i :: 0 <= i < |ts| && ParseDecimal(ts[i].percent, syn) != ps[i]
  }

  /** How `hasChanged` ends: no change found, a change found, or a `TypeError`. */
  datatype ChangeCheck = Unchanged | Changed | NoEqualsMethod

  /**
   * The stored percent as `original.percent ?? new Decimal(0)` gives it to
   * `.equals`: a Decimal, 0 for a missing one, and nothing for a text,
   * which has no `.equals` method.
   */
  function StoredDecimal(p: Input): (d: Option<real>)
    ensures d.None? <==> p.Text?
  {
    match p
    case Null => Some(0.0)
    case Dec(x) => Some(x)
    case Text(_) => None
  }

  /**
   * `originalTargets.some(...)` from position `i` on, as written: left to
   * right, stopping at the first stored percent that differs, and throwing
   * at a text percent met before one.
   */
  function ChangeScan(ts: seq<TargetInput>, ps: seq<real>, i: nat): (c: ChangeCheck)
    requires |ps| == |ts| && i <= |ts|
    decreases |ts| - i
    ensures c == Unchanged <==> forall k :: i <= k < |ts| ==> StoredDecimal(ts[k].percent) == Some(ps[k])
    ensures c == NoEqualsMethod ==> exists k :: i <= k < |ts| && ts[k].percent.Text?
    ensures (i < |ts| && ts[i].percent.Text?) ==> c == NoEqualsMethod
  {
    if i == |ts| then Unchanged
    else
      match StoredDecimal(ts[i].percent)
      case None => NoEqualsMethod
      case Some(d) => if d != ps[i] then Changed else ChangeScan(ts, ps, i + 1)
  }

  /**
   * Without a text percent `hasChanged` does not throw, and it finds a
   * change exactly when a stored percent differs.
   */
  lemma ChangeScanWithoutText(ts: seq<TargetInput>, ps: seq<real>, syn: NumberSyntax)
    requires |ps| == |ts| && forall k :: 0 <= k < |ts| ==> !ts[k].percent.Text?
    ensures ChangeScan(ts, ps, 0) != NoEqualsMethod
    ensures ChangeScan(ts, ps, 0) == Changed <==> HasChanged(ts, ps, syn)
  {
    if ChangeScan(ts, ps, 0) == Changed {
      var k :| 0 <= k < |ts| && StoredDecimal(ts[k].percent) != Some(ps[k]);
      assert ParseDecimal(ts[k].percent, syn) != ps[k];
    }
    if HasChanged(ts, ps, syn) {
      var k :| 0 <= k < |ts| && ParseDecimal(ts[k].percent, syn) != ps[k];
      assert StoredDecimal(ts[k].percent) != Some(ps[k]);
    }
  }

  /** `adjustTpPercentages` throws: it rebalances and `hasChanged` meets a text percent before a change. */
  predicate AdjustThrows(ts: seq<TargetInput>, changedIndex: Option<int>, syn: NumberSyntax)
  {
    var plan := PlanFor(ts, changedIndex, syn);
    plan.Rebalanced? && |plan.percents| == |ts| && ChangeScan(ts, plan.percents, 0) == NoEqualsMethod
  }

  /**
   * The targets after `adjustTpPercentages(changedIndex)` as written:
   * written back only when `hasChanged` finds a change; when it throws
   * they stay as they were.
   */
  function AdjustedTargets(ts: seq<TargetInput>, changedIndex: Option<int>, syn: NumberSyntax): (r: seq<TargetInput>)
    ensures SameLocks(ts, r) && forall i :: 0 <= i < |ts| ==> r[i].price == ts[i].price
    ensures changedIndex.Some? && 0 <= changedIndex.value < |ts| && ts[changedIndex.value].isLocked ==> r == ts
    ensures LockedUpTo(ts, TargetPercents(ts, syn), |ts|) > 100.0 ==> r == ts
    ensures UnlockedCount(ts, |ts|) == 0 ==> r == ts
    ensures AdjustThrows(ts, changedIndex, syn) ==> r == ts
  {
    match PlanFor(ts, changedIndex, syn)
    case NoChange => ts
    case Rebalanced(ps) => if |ps| == |ts| && ChangeScan(ts, ps, 0) == Changed then WithPercents(ts, ps) else ts
  }

  /** The targets as evidently intended: `hasChanged` compares the percents read as numbers. */
  function AdjustedTargetsIntended(ts: seq<TargetInput>, changedIndex: Option<int>, syn: NumberSyntax): (r: seq<TargetInput>)
    ensures SameLocks(ts, r) && forall i :: 0 <= i < |ts| ==> r[i].price == ts[i].price
    ensures PlanFor(ts, changedIndex, syn).NoChange? ==> r == ts
  {
    match PlanFor(ts, changedIndex, syn)
    case NoChange => ts
    case Rebalanced(ps) => if |ps| == |ts| && HasChanged(ts, ps, syn) then WithPercents(ts, ps) else ts
  }

  // ---------------------------------------------------------------------
  // Properties
  // ---------------------------------------------------------------------

  lemma IntegerAdd(a: real, b: real)
    requires IsInteger(a) && IsInteger(b)
    ensures IsInteger(a + b)
  {
    var m, n := a.Floor, b.Floor;
    assert a + b == (m + n) as real;
  }

  lemma IntegerSub(a: real, b: real)
    requires IsInteger(a) && IsInteger(b)
    ensures IsInteger(a - b)
  {
    var m, n := a.Floor, b.Floor;
    assert a - b == (m - n) as real;
  }

  lemma {:induction false} RoundedBelowInteger(ts: seq<TargetInput>, sc: seq<real>, n: nat)
    requires n <= |ts| == |sc|
    ensures IsInteger(RoundedBelow(ts, sc, n))
  {
    if n > 0 {
      RoundedBelowInteger(ts, sc, n - 1);
      var k := if ts[n - 1].isLocked then 0 else RoundHalfUp(sc[n - 1]);
      assert IsInteger(k as real);
      IntegerAdd(RoundedBelow(ts, sc, n - 1), k as real);
    }
  }

  /** Up to the last unlocked target, the rounded percents sum to the rounded sum. */
  lemma {:induction false} RoundedUpTo(ts: seq<TargetInput>, sc: seq<real>, target: real, n: nat)
    requires |ts| == |sc| && n <= LastUnlocked(ts, |ts|)
    ensures UnlockedUpTo(ts, Rounded(ts, sc, target), n) == RoundedBelow(ts, sc, n)
  {
    if n > 0 {
      RoundedUpTo(ts, sc, target, n - 1);
    }
  }

  /**
   * The rounding step: locked percents are kept, every unlocked one is a
   * whole number, each but the last is within half a percent of its
   * scaled value, and the last one is the rounded remainder.
   */
  lemma RoundedShape(ts: seq<TargetInput>, sc: seq<real>, target: real)
    requires |ts| == |sc|
    ensures var r := Rounded(ts, sc, target);
      && (forall i :: 0 <= i < |ts| && ts[i].isLocked ==> r[i] == sc[i])
      && UnlockedIntegers(ts, r)
      && (forall i :: 0 <= i < |ts| && !ts[i].isLocked && i != LastUnlocked(ts, |ts|) ==>
            sc[i] - 0.5 <= r[i] <= sc[i] + 0.5)
  {
    var r := Rounded(ts, sc, target);
    forall i | 0 <= i < |ts| && !ts[i].isLocked
      ensures IsInteger(r[i])
    {
      var k := if i == LastUnlocked(ts, |ts|) then RoundHalfUp(target - RoundedBelow(ts, sc, i)) else RoundHalfUp(sc[i]);
      assert r[i] == k as real;
    }
  }

  lemma RoundWhole(x: real)
    requires IsInteger(x)
    ensures RoundHalfUp(x) as real == x
  {
  }

  /** The last unlocked target takes the rounded remainder of the target. */
  lemma RoundedLast(ts: seq<TargetInput>, sc: seq<real>, target: real)
    requires |ts| == |sc| && UnlockedCount(ts, |ts|) > 0 && IsInteger(target)
    ensures var last := LastUnlocked(ts, |ts|);
      UnlockedUpTo(ts, Rounded(ts, sc, target), last + 1) == target
  {
    var last := LastUnlocked(ts, |ts|);
    RoundedUpTo(ts, sc, target, last);
    RemainderIsWhole(ts, sc, target);
  }

  /** The remainder left for the last unlocked target is a whole number, so rounding keeps it. */
  lemma RemainderIsWhole(ts: seq<TargetInput>, sc: seq<real>, target: real)
    requires |ts| == |sc| && UnlockedCount(ts, |ts|) > 0 && IsInteger(target)
    ensures var last := LastUnlocked(ts, |ts|);
      Rounded(ts, sc, target)[last] == target - RoundedBelow(ts, sc, last)
  {
    var last := LastUnlocked(ts, |ts|);
    var below := RoundedBelow(ts, sc, last);
    assert Rounded(ts, sc, target)[last] == RoundHalfUp(target - below) as real;
    RoundedBelowInteger(ts, sc, last);
    WholeDifference(target, below);
  }

  lemma WholeDifference(a: real, b: real)
    requires IsInteger(a) && IsInteger(b)
    ensures RoundHalfUp(a - b) as real == a - b
  {
    IntegerSub(a, b);
    RoundWhole(a - b);
  }

  /** With a whole-number target, the unlocked rounded percents make it up exactly. */
  lemma RoundedReachesTarget(ts: seq<TargetInput>, sc: seq<real>, target: real)
    requires |ts| == |sc| && UnlockedCount(ts, |ts|) > 0 && IsInteger(target)
    ensures UnlockedUpTo(ts, Rounded(ts, sc, target), |ts|) == target
  {
    var last := LastUnlocked(ts, |ts|);
    RoundedLast(ts, sc, target);
    UnlockedUpToLockedTail(ts, Rounded(ts, sc, target), last + 1, |ts|);
  }

  /** Locked percents kept and unlocked ones making up 100 minus them: all sum to 100. */
  lemma TotalIsHundred(ts: seq<TargetInput>, ps: seq<real>, r: seq<real>)
    requires |ps| == |r| == |ts|
    requires forall i :: 0 <= i < |ts| && ts[i].isLocked ==> r[i] == ps[i]
    requires UnlockedUpTo(ts, r, |ts|) == 100.0 - LockedUpTo(ts, ps, |ts|)
    ensures Sum(r) == 100.0
  {
    SumSplits(ts, r, |ts|);
    assert r[..|ts|] == r;
    LockedUpToSame(ts, ts, r, ps, |ts|);
  }

  /**
   * A rebalancing keeps every locked percent and makes every unlocked one
   * a whole number; when the locked percents are whole numbers, the
   * unlocked ones make up the rest and all targets sum to exactly 100.
   */
  lemma RebalancedProperties(ts: seq<TargetInput>, changedIndex: Option<int>, syn: NumberSyntax)
    requires PlanFor(ts, changedIndex, syn).Rebalanced?
    ensures var ps := PlanFor(ts, changedIndex, syn).percents;
      var before := TargetPercents(ts, syn);
      var lockedSum := LockedUpTo(ts, before, |ts|);
      && |ps| == |ts|
      && (forall i :: 0 <= i < |ts| && ts[i].isLocked ==> ps[i] == before[i])
      && UnlockedIntegers(ts, ps)
      && (IsInteger(lockedSum) ==> UnlockedUpTo(ts, ps, |ts|) == 100.0 - lockedSum && Sum(ps) == 100.0)
  {
    var ps0 := TargetPercents(ts, syn);
    var lockedSum := LockedUpTo(ts, ps0, |ts|);
    var target := UnlockedTarget(ts, syn);
    var sc := Scaled(ts, ps0, target, UnlockedUpTo(ts, ps0, |ts|));
    var ps := Rounded(ts, sc, target);
    RoundedShape(ts, sc, target);
    if IsInteger(lockedSum) {
      assert IsInteger(100.0);
      IntegerSub(100.0, lockedSum);
      RoundedReachesTarget(ts, sc, target);
      TotalIsHundred(ts, ps0, ps);
    }
  }

  /**
   * After a rebalancing as written: when `hasChanged` throws the targets
   * stay as they were; otherwise they read as the new percents, written
   * back or not.
   */
  lemma AdjustedTargetsRead(ts: seq<TargetInput>, changedIndex: Option<int>, syn: NumberSyntax)
    requires PlanFor(ts, changedIndex, syn).Rebalanced?
    ensures AdjustThrows(ts, changedIndex, syn) ==> AdjustedTargets(ts, changedIndex, syn) == ts
    ensures !AdjustThrows(ts, changedIndex, syn) ==>
      TargetPercents(AdjustedTargets(ts, changedIndex, syn), syn) == PlanFor(ts, changedIndex, syn).percents
  {
    var ps := PlanFor(ts, changedIndex, syn).percents;
    assert |ps| == |ts|;
    var r := AdjustedTargets(ts, changedIndex, syn);
    var qs := TargetPercents(r, syn);
    var c := ChangeScan(ts, ps, 0);
    forall i | 0 <= i < |ts| && c != NoEqualsMethod
      ensures qs[i] == ps[i]
    {
      if c == Changed {
        assert r[i].percent == Dec(ps[i]);
      } else {
        assert StoredDecimal(ts[i].percent) == Some(ps[i]);
      }
    }
  }

  /** After a rebalancing as intended the stored targets read as the new percents, written back or not. */
  lemma AdjustedTargetsIntendedRead(ts: seq<TargetInput>, changedIndex: Option<int>, syn: NumberSyntax)
    requires PlanFor(ts, changedIndex, syn).Rebalanced?
    ensures TargetPercents(AdjustedTargetsIntended(ts, changedIndex, syn), syn) == PlanFor(ts, changedIndex, syn).percents
  {
    var ps := PlanFor(ts, changedIndex, syn).percents;
    assert |ps| == |ts|;
    var r := AdjustedTargetsIntended(ts, changedIndex, syn);
    var qs := TargetPercents(r, syn);
    forall i | 0 <= i < |ts|
      ensures qs[i] == ps[i]
    {
      if HasChanged(ts, ps, syn) {
        assert r[i].percent == Dec(ps[i]);
      }
    }
  }

  /** A cleared first percent field after an earlier rebalancing, the other two at 25 %. */
  const ClearedFirst: seq<TargetInput> :=
    [TargetInput(Null, Text(""), false), TargetInput(Null, Dec(25.0), false), TargetInput(Null, Dec(25.0), false)]

  lemma ClearedFirstSums(syn: NumberSyntax)
    ensures TargetPercents(ClearedFirst, syn) == [0.0, 25.0, 25.0]
    ensures LockedUpTo(ClearedFirst, [0.0, 25.0, 25.0], 3) == 0.0
    ensures UnlockedUpTo(ClearedFirst, [0.0, 25.0, 25.0], 3) == 50.0
    ensures UnlockedCount(ClearedFirst, 3) == 3 && LastUnlocked(ClearedFirst, 3) == 2
  {
    var ts, ps := ClearedFirst, [0.0, 25.0, 25.0];
    var qs := TargetPercents(ts, syn);
    assert qs[0] == 0.0 && qs[1] == 25.0 && qs[2] == 25.0;
    assert LockedUpTo(ts, ps, 1) == 0.0 && LockedUpTo(ts, ps, 2) == 0.0;
    assert UnlockedUpTo(ts, ps, 1) == 0.0 && UnlockedUpTo(ts, ps, 2) == 25.0;
  }

  lemma ClearedFirstRounded()
    ensures Rounded(ClearedFirst, Scaled(ClearedFirst, [0.0, 25.0, 25.0], 100.0, 50.0), 100.0) == [0.0, 50.0, 50.0]
  {
    var ts := ClearedFirst;
    assert UnlockedCount(ts, 3) == 3 && LastUnlocked(ts, 3) == 2;
    var sc := Scaled(ts, [0.0, 25.0, 25.0], 100.0, 50.0);
    assert sc[0] == 0.0 && sc[1] == 50.0 && sc[2] == 50.0;
    assert RoundHalfUp(0.0) == 0 && RoundHalfUp(50.0) == 50;
    assert RoundedBelow(ts, sc, 1) == 0.0 && RoundedBelow(ts, sc, 2) == 50.0;
    var r := Rounded(ts, sc, 100.0);
    assert r[0] == 0.0 && r[1] == 50.0 && r[2] == 50.0;
  }

  lemma ClearedFirstPlan(syn: NumberSyntax)
    ensures PlanFor(ClearedFirst, None, syn) == Rebalanced([0.0, 50.0, 50.0])
  {
    ClearedFirstSums(syn);
    ClearedFirstRounded();
    assert UnlockedTarget(ClearedFirst, syn) == 100.0;
    assert !Balanced(ClearedFirst, syn);
  }

  /**
   * With the first percent field cleared the rebalancing computes 0/50/50,
   * but `hasChanged` meets the text percent first and throws, so nothing is
   * written; the intended comparison writes the new percents.
   */
  lemma ClearedFirstPercentThrows(syn: NumberSyntax)
    ensures PlanFor(ClearedFirst, None, syn) == Rebalanced([0.0, 50.0, 50.0])
    ensures AdjustThrows(ClearedFirst, None, syn)
    ensures AdjustedTargets(ClearedFirst, None, syn) == ClearedFirst
    ensures AdjustedTargetsIntended(ClearedFirst, None, syn) ==
      [TargetInput(Null, Dec(0.0), false), TargetInput(Null, Dec(50.0), false), TargetInput(Null, Dec(50.0), false)]
  {
    var ts, ps := ClearedFirst, [0.0, 50.0, 50.0];
    ClearedFirstPlan(syn);
    assert ChangeScan(ts, ps, 0) == NoEqualsMethod;
    assert ParseDecimal(ts[1].percent, syn) != ps[1];
    assert HasChanged(ts, ps, syn);
    var r := WithPercents(ts, ps);
    assert r == [TargetInput(Null, Dec(0.0), false), TargetInput(Null, Dec(50.0), false), TargetInput(Null, Dec(50.0), false)];
  }

  /**
   * Once written back without a throw, whole unlocked percents that make up
   * the rest leave nothing to rebalance.
   */
  lemma AdjustedBalanced(ts: seq<TargetInput>, changedIndex: Option<int>, syn: NumberSyntax)
    requires IsInteger(LockedUpTo(ts, TargetPercents(ts, syn), |ts|))
    requires PlanFor(ts, changedIndex, syn).Rebalanced? && !AdjustThrows(ts, changedIndex, syn)
    ensures PlanFor(AdjustedTargets(ts, changedIndex, syn), changedIndex, syn) == NoChange
  {
    var once := AdjustedTargets(ts, changedIndex, syn);
    var ps := PlanFor(ts, changedIndex, syn).percents;
    var before := TargetPercents(ts, syn);
    RebalancedProperties(ts, changedIndex, syn);
    AdjustedTargetsRead(ts, changedIndex, syn);
    var qs := TargetPercents(once, syn);
    assert qs == ps;
    LockedUpToSame(ts, once, before, qs, |ts|);
    UnlockedUpToSame(ts, once, ps, qs, |ts|);
    assert UnlockedIntegers(once, qs);
  }

  /**
   * Adjusting twice is adjusting once, whenever the locked percents are
   * whole numbers: the second adjustment finds whole unlocked percents
   * that make up the rest, and leaves the targets alone.
   */
  lemma AdjustIdempotent(ts: seq<TargetInput>, changedIndex: Option<int>, syn: NumberSyntax)
    requires IsInteger(LockedUpTo(ts, TargetPercents(ts, syn), |ts|))
    ensures var once := AdjustedTargets(ts, changedIndex, syn);
      AdjustedTargets(once, changedIndex, syn) == once
  {
    if PlanFor(ts, changedIndex, syn).Rebalanced? && !AdjustThrows(ts, changedIndex, syn) {
      AdjustedBalanced(ts, changedIndex, syn);
    }
  }

  // ---------------------------------------------------------------------
  // The method
  // ---------------------------------------------------------------------

  /**
   * `adjustTpPercentages(changedIndex)` on the trade store; `threw` tells
   * that `hasChanged` ended in a `TypeError` before anything was written.
   */
  method AdjustTpPercentages(stores: Stores, changedIndex: Option<int>, syn: NumberSyntax) returns (threw: bool)
    modifies stores
    ensures threw <==> AdjustThrows(old(stores.trade.targets), changedIndex, syn)
    ensures stores.trade == old(stores.trade).(targets := AdjustedTargets(old(stores.trade.targets), changedIndex, syn))
    ensures stores.results == old(stores.results) && stores.ui == old(stores.ui)
  {
    threw := false;
    var originalTargets := stores.trade.targets;
    var plan := ComputePlan(originalTargets, changedIndex, syn);
    if plan.Rebalanced? {
      var finalTargets := WithPercents(originalTargets, plan.percents);
      var hasChanged := Differs(originalTargets, plan.percents);
      if hasChanged == NoEqualsMethod {
        return true;
      }
      if hasChanged == Changed {
        stores.trade := stores.trade.(targets := finalTargets);
      }
    }
  }

  /** The computing part of `adjustTpPercentages`, up to the new percents. */
  method ComputePlan(ts: seq<TargetInput>, changedIndex: Option<int>, syn: NumberSyntax) returns (plan: Plan)
    ensures plan == PlanFor(ts, changedIndex, syn)
  {
    if changedIndex.Some? && 0 <= changedIndex.value < |ts| && ts[changedIndex.value].isLocked {
      return NoChange;
    }
    var ps := TargetPercents(ts, syn);
    var lockedSum := LockedUpTo(ts, ps, |ts|);
    if lockedSum > 100.0 {
      return NoChange;
    }
    if UnlockedCount(ts, |ts|) == 0 {
      return NoChange;
    }
    var unlockedTargetSum := 100.0 - lockedSum;
    var unlockedCurrentSum := UnlockedUpTo(ts, ps, |ts|);
    if unlockedCurrentSum == unlockedTargetSum && UnlockedIntegers(ts, ps) {
      return NoChange;
    }
    assert unlockedTargetSum == UnlockedTarget(ts, syn);
    var scaled := Rescale(ts, ps, unlockedTargetSum, unlockedCurrentSum);
    var rounded := RoundUnlocked(ts, scaled, unlockedTargetSum);
    assert rounded == RebalancedPercents(ts, syn);
    return Rebalanced(rounded);
  }

  /** The equal share when the unlocked percents sum to zero, the scaling otherwise. */
  method Rescale(ts: seq<TargetInput>, ps: seq<real>, target: real, current: real) returns (r: seq<real>)
    requires |ps| == |ts|
    ensures r == Scaled(ts, ps, target, current)
  {
    r := ps;
    if current == 0.0 {
      if target > 0.0 && UnlockedCount(ts, |ts|) > 0 {
        var share := target / (UnlockedCount(ts, |ts|) as real);
        r := SetUnlocked(ts, ps, share);
      }
    } else {
      var scalingFactor := target / current;
      r := ScaleUnlocked(ts, ps, scalingFactor);
    }
    var sc := Scaled(ts, ps, target, current);
    assert forall i :: 0 <= i < |ps| ==> r[i] == sc[i];
  }

  /** `unlockedTargets.forEach(t => t.percent = share)`. */
  method SetUnlocked(ts: seq<TargetInput>, ps: seq<real>, share: real) returns (r: seq<real>)
    requires |ps| == |ts|
    ensures |r| == |ps|
    ensures forall i :: 0 <= i < |ps| ==> r[i] == if ts[i].isLocked then ps[i] else share
  {
    r := ps;
    for i := 0 to |ts|
      invariant |r| == |ps|
      invariant forall x :: 0 <= x < |ps| ==> r[x] == if x < i && !ts[x].isLocked then share else ps[x]
    {
      if !ts[i].isLocked {
        r := r[i := share];
      }
    }
  }

  /** `unlockedTargets.forEach(t => t.percent = t.percent.times(scalingFactor))`. */
  method ScaleUnlocked(ts: seq<TargetInput>, ps: seq<real>, factor: real) returns (r: seq<real>)
    requires |ps| == |ts|
    ensures |r| == |ps|
    ensures forall i :: 0 <= i < |ps| ==> r[i] == if ts[i].isLocked then ps[i] else ps[i] * factor
  {
    r := ps;
    for i := 0 to |ts|
      invariant |r| == |ps|
      invariant forall x :: 0 <= x < |ps| ==> r[x] == if x < i && !ts[x].isLocked then ps[x] * factor else ps[x]
    {
      if !ts[i].isLocked {
        r := r[i := r[i] * factor];
      }
    }
  }

  /** The rounding loop over the unlocked targets but the last; the last one takes the remainder. */
  method RoundUnlocked(ts: seq<TargetInput>, sc: seq<real>, target: real) returns (ps: seq<real>)
    requires |sc| == |ts| && UnlockedCount(ts, |ts|) > 0
    ensures ps == Rounded(ts, sc, target)
  {
    var last := LastUnlocked(ts, |ts|);
    ps := sc;
    var roundedSum := 0.0;
    for i := 0 to last
      invariant |ps| == |sc|
      invariant forall x :: 0 <= x < |ps| ==> ps[x] == if x < i && !ts[x].isLocked then RoundHalfUp(sc[x]) as real else sc[x]
      invariant roundedSum == RoundedBelow(ts, sc, i)
    {
      if !ts[i].isLocked {
        var rounded := RoundHalfUp(ps[i]) as real;
        ps := ps[i := rounded];
        roundedSum := roundedSum + rounded;
      }
    }
    ps := ps[last := RoundHalfUp(target - roundedSum) as real];
  }

  /** `hasChanged`: the stored percents compared in order with `.equals`. */
  method Differs(ts: seq<TargetInput>, ps: seq<real>) returns (c: ChangeCheck)
    requires |ps| == |ts|
    ensures c == ChangeScan(ts, ps, 0)
  {
    var i := 0;
    while i < |ts|
      invariant 0 <= i <= |ts|
      invariant ChangeScan(ts, ps, i) == ChangeScan(ts, ps, 0)
    {
      var stored := StoredDecimal(ts[i].percent);
      if stored.None? {
        return NoEqualsMethod;
      }
      if stored.value != ps[i] {
        return Changed;
      }
      i := i + 1;
    }
    return Unchanged;
  }
}
