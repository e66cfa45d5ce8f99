/** Fixed-capacity pools: a slot is inactive when its life counter is <= 0, and every
    spawn, fire or explosion claims the lowest-index inactive slot (or nothing). */
module Pools {

  datatype Option<T> = None | Some(value: T)

  /** Position of the first life counter that is <= 0, scanning in slot order. */
  function FirstInactive(lives: seq<int>): (r: Option<nat>)
    ensures r.Some? ==> r.value < |lives| && lives[r.value] <= 0
    ensures r.Some? ==> forall j :: 0 <= j < r.value ==> lives[j] > 0
    ensures r.None? <==> forall j :: 0 <= j < |lives| ==> lives[j] > 0
  {
    if |lives| == 0 then None
    else if lives[0] <= 0 then Some(0)
    else match FirstInactive(lives[1..])
      case None => None
      case Some(k) => Some(k + 1)
  }

  /** The first inactive slot is characterised by its two defining facts. */
  lemma {:induction false} FirstInactiveAt(lives: seq<int>, k: nat)
    requires k < |lives| && lives[k] <= 0
    requires forall j :: 0 <= j < k ==> lives[j] > 0
    ensures FirstInactive(lives) == Some(k)
  {
    if k > 0 {
      FirstInactiveAt(lives[1..], k - 1);
    }
  }

  /** Number of active (life > 0) slots. */
  function ActiveCount(lives: seq<int>): (n: nat)
    ensures n <= |lives|
  {
    if |lives| == 0 then 0
    else (if lives[0] > 0 then 1 else 0) + ActiveCount(lives[1..])
  }

  /** Every slot is active exactly when there is no inactive slot to claim. */
  lemma {:induction false} FullIffNoneFree(lives: seq<int>)
    ensures ActiveCount(lives) == |lives| <==> FirstInactive(lives).None?
  {
    if |lives| > 0 {
      FullIffNoneFree(lives[1..]);
    }
  }

  /** Activating the first inactive slot raises the active count by exactly one. */
  lemma {:induction false} ActivateFirstCounts(lives: seq<int>, k: nat, v: int)
    requires FirstInactive(lives) == Some(k) && v > 0
    ensures ActiveCount(lives[k := v]) == ActiveCount(lives) + 1
  {
    if k > 0 {
      assert lives[k := v][1..] == lives[1..][k - 1 := v];
      ActivateFirstCounts(lives[1..], k - 1, v);
    } else {
      assert lives[k := v][1..] == lives[1..];
    }
  }

  function MinInt(a: int, b: int): int { if a <= b then a else b }

  lemma MinStep(a: int, p: int, n: nat)
    requires a <= p && n > 0
    ensures MinInt(MinInt(a + 1, p) + n - 1, p) == MinInt(a + n, p)
  {}
}
