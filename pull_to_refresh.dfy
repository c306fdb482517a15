/**
 * Pull to refresh: a touch gesture that pulls the content down, up to one and
 * a half times the threshold, and on release past the threshold runs the
 * refresh callback, then springs back.
 */
module PullToRefresh {

  const DefaultThreshold: real := 100.0
  /** The indicator fades in past this many pixels. */
  const VisibleFrom: real := 20.0

  function Min(a: real, b: real): real { if a <= b then a else b }
  function Max(a: real, b: real): real { if a >= b then a else b }

  /** The distance shown for a pull: `Math.min(pull, threshold * 1.5)`. */
  function Shown(pull: real, threshold: real): (d: real)
    requires threshold > 0.0
    ensures d <= threshold * 1.5
    ensures pull >= 0.0 ==> 0.0 <= d <= pull
  {
    Min(pull, threshold * 1.5)
  }

  /**
   * Clamping never moves a pull across the threshold, so the release test
   * `canRefresh && pullDistance >= threshold` asks no more than `canRefresh`.
   */
  lemma ShownKeepsThresholdSide(pull: real, threshold: real)
    requires threshold > 0.0
    ensures Shown(pull, threshold) >= threshold <==> pull >= threshold
  {
  }

  /** `pullProgress`: `Math.min(pullDistance / threshold, 1)`. */
  function Progress(distance: real, threshold: real): (p: real)
    requires threshold > 0.0
    ensures distance >= 0.0 ==> 0.0 <= p
    ensures p <= 1.0
    ensures p == 1.0 <==> distance >= threshold
  {
    var q := distance / threshold;
    assert q * threshold == distance;
    assert q >= 1.0 <==> distance >= threshold by {
      if q >= 1.0 {
        assert q * threshold >= 1.0 * threshold;
      } else {
        assert q * threshold < 1.0 * threshold;
      }
    }
    Min(q, 1.0)
  }

  /** The indicator's caption. */
  datatype Caption = Refreshing | ReleaseToRefresh | PullToRefreshCaption

  class Gesture {
    const threshold: real
    const disabled: bool
    var pullDistance: real
    var isRefreshing: bool
    var canRefresh: bool
    /** `startYRef` and `currentYRef`. */
    var startY: real
    var currentY: real

    /**
     * The states the handlers keep: the distance is within its clamp, a
     * release is armed only past the threshold, and a refresh runs only from
     * an armed release on an enabled control.
     */
    predicate Valid()
      reads this
    {
      threshold > 0.0
      && 0.0 <= pullDistance <= threshold * 1.5
      && (canRefresh ==> pullDistance >= threshold)
      && (isRefreshing ==> canRefresh && !disabled)
    }

    constructor (threshold: real := DefaultThreshold, disabled: bool := false)
      requires threshold > 0.0
      ensures this.threshold == threshold && this.disabled == disabled
      ensures pullDistance == 0.0 && !isRefreshing && !canRefresh && startY == 0.0 && currentY == 0.0
      ensures Valid()
    {
      this.threshold := threshold;
      this.disabled := disabled;
      pullDistance := 0.0;
      isRefreshing := false;
      canRefresh := false;
      startY := 0.0;
      currentY := 0.0;
    }

    /** The indicator's fill, from 0 to 1; full exactly when a release would refresh. */
    function PullProgress(): (p: real)
      reads this
      requires Valid()
      ensures 0.0 <= p <= 1.0
      ensures p == 1.0 <==> pullDistance >= threshold
    {
      Progress(pullDistance, threshold)
    }

    /** The caption under the spinner. */
    function CaptionShown(): Caption
      reads this
    {
      if isRefreshing then Refreshing else if canRefresh then ReleaseToRefresh else PullToRefreshCaption
    }

    /** The indicator's opacity is 1 past `VisibleFrom` pixels and 0 below. */
    predicate IndicatorVisible()
      reads this
    {
      pullDistance > VisibleFrom
    }

    /**
     * The caption follows the indicator's fill: "Release to refresh" and
     * "Refreshing..." only over a full indicator, "Pull to refresh" otherwise
     * while idle.
     */
    lemma CaptionTracksArming()
      requires Valid()
      ensures CaptionShown() == ReleaseToRefresh ==> PullProgress() == 1.0
      ensures isRefreshing ==> CaptionShown() == Refreshing && PullProgress() == 1.0
      ensures CaptionShown() == PullToRefreshCaption ==> !canRefresh && !isRefreshing
    {
    }

    /** With a threshold past `VisibleFrom` (the default 100 is), an armed or refreshing control is on screen. */
    lemma ArmedIsVisible()
      requires Valid() && threshold > VisibleFrom
      ensures CaptionShown() != PullToRefreshCaption ==> IndicatorVisible()
    {
    }

    /** `handleTouchStart`: the start of a pull is recorded unless disabled or scrolled. */
    method TouchStart(clientY: real, scrolled: bool)
      modifies this`startY
      ensures startY == if disabled || scrolled then old(startY) else clientY
    {
      if disabled || scrolled {
        return;
      }
      startY := clientY;
    }

    /**
     * `handleTouchMove`: ignored while disabled, refreshing or scrolled. A
     * downward pull sets the shown distance (clamped) and arms the release
     * when the pull reaches the threshold; `prevented` says whether the
     * page's own scrolling was stopped.
     */
    method TouchMove(clientY: real, scrolled: bool) returns (prevented: bool)
      requires Valid()
      modifies this`currentY, this`pullDistance, this`canRefresh
      ensures Valid()
      ensures disabled || old(isRefreshing) || scrolled ==>
        !prevented && currentY == old(currentY) && pullDistance == old(pullDistance) && canRefresh == old(canRefresh)
      ensures !(disabled || old(isRefreshing) || scrolled) ==>
        currentY == clientY && (prevented <==> clientY > startY)
      ensures prevented ==>
        pullDistance == Shown(clientY - startY, threshold) && (canRefresh <==> clientY - startY >= threshold)
      ensures !prevented ==> pullDistance == old(pullDistance) && canRefresh == old(canRefresh)
    {
      if disabled || isRefreshing || scrolled {
        return false;
      }
      currentY := clientY;
      var pull := Max(0.0, currentY - startY);
      prevented := pull > 0.0;
      if prevented {
        ShownKeepsThresholdSide(pull, threshold);
        pullDistance := Shown(pull, threshold);
        canRefresh := pull >= threshold;
      }
    }

    /**
     * `handleTouchEnd` up to its `await`: ignored while disabled or refreshing.
     * An armed release starts the refresh (`started`); any other release
     * springs back at once.
     */
    method TouchEnd() returns (started: bool)
      requires Valid()
      modifies this`pullDistance, this`canRefresh, this`isRefreshing
      ensures Valid()
      ensures started <==> !disabled && !old(isRefreshing) && old(canRefresh)
      ensures started ==> isRefreshing && pullDistance == old(pullDistance) && canRefresh
      ensures !started && (disabled || old(isRefreshing)) ==>
        pullDistance == old(pullDistance) && canRefresh == old(canRefresh) && isRefreshing == old(isRefreshing)
      ensures !started && !disabled && !old(isRefreshing) ==>
        pullDistance == 0.0 && !canRefresh && !isRefreshing
    {
      if disabled || isRefreshing {
        return false;
      }
      if canRefresh && pullDistance >= threshold {
        isRefreshing := true;
        return true;
      }
      pullDistance := 0.0;
      canRefresh := false;
      started := false;
    }

    /**
     * The rest of `handleTouchEnd` once `onRefresh` settles, whether it
     * resolved or `failed`: the control is idle and back at rest either way.
     */
    method RefreshSettled(failed: bool)
      requires Valid() && isRefreshing
      modifies this`pullDistance, this`canRefresh, this`isRefreshing
      ensures Valid()
      ensures !isRefreshing && !canRefresh && pullDistance == 0.0
    {
      isRefreshing := false;
      canRefresh := false;
      pullDistance := 0.0;
    }
  }
}
