/**
 * USsLightFlickerComponent: plays a light curve by advancing a time position
 * each tick, wrapping it into the curve's period, and mapping the curve's
 * value into [MinValue, MaxValue].
 *
 * Host services become inputs: the owner's network role and the replication
 * flag are boolean parameters, the per-frame tick dispatch is the
 * `tickEnabled` flag, and OnLightCurveUpdated.Broadcast is recorded as the
 * sequence of broadcast values.
 */
module Flicker {
  import opened Wrappers
  import opened LightCurves
  import opened CurveRegistry

  // Facts of real multiplication and division, one step each, for the proofs of
  // LerpWithinRange and PeriodsDecrease below.

  /** A product of two non-negative reals is non-negative. */
  lemma MulNonNegative(x: real, y: real)
    requires 0.0 <= x && 0.0 <= y
    ensures 0.0 <= x * y
  {
  }

  /** Multiplication distributes over a difference. */
  lemma MulDistributes(x: real, y: real, z: real)
    ensures x * (y - z) == x * y - x * z
  {
  }

  /** A positive factor cancels from both sides of an equation. */
  lemma MulCancels(x: real, y: real, p: real)
    requires 0.0 < p && x * p == y * p
    ensures x == y
  {
    assert (x - y) * p == 0.0;
  }

  /** Real division by a positive number is undone by multiplying back. */
  lemma DivMulExact(t: real, p: real)
    requires 0.0 < p
    ensures (t / p) * p == t
  {
  }

  /** FMath::Lerp: A + Alpha * (B - A); Alpha 0 gives A and Alpha 1 gives B. */
  function Lerp(a: real, b: real, alpha: real): (r: real)
    ensures alpha == 0.0 ==> r == a
    ensures alpha == 1.0 ==> r == b
  {
    a + alpha * (b - a)
  }

  /** An Alpha between 0 and 1 gives a value between A and B, whichever of them is larger. */
  lemma LerpWithinRange(a: real, b: real, alpha: real)
    requires 0.0 <= alpha <= 1.0
    ensures a <= b ==> a <= Lerp(a, b, alpha) <= b
    ensures b <= a ==> b <= Lerp(a, b, alpha) <= a
  {
    if a <= b {
      MulNonNegative(alpha, b - a);
      MulNonNegative(1.0 - alpha, b - a);
      MulDistributes(b - a, 1.0, alpha);
      assert (1.0 - alpha) * (b - a) == (b - a) - alpha * (b - a);
    } else {
      MulNonNegative(alpha, a - b);
      MulNonNegative(1.0 - alpha, a - b);
      MulDistributes(a - b, 1.0, alpha);
      assert (1.0 - alpha) * (a - b) == (a - b) - alpha * (a - b);
      assert alpha * (b - a) == - (alpha * (a - b));
    }
  }

  /** One subtraction takes exactly one period off the time, measured in periods. */
  lemma PeriodsDecrease(time: real, period: real)
    requires 0.0 < period < time
    ensures time / period > 1.0
    ensures (time - period) / period == time / period - 1.0
  {
    var q := time / period;
    DivMulExact(time, period);
    DivMulExact(time - period, period);
    MulDistributes(period, q, 1.0);
    assert (q - 1.0) * period == time - period;
    MulCancels((time - period) / period, q - 1.0, period);
    if q <= 1.0 {
      MulNonNegative(1.0 - q, period);
    }
  }

  /**
   * The wrap loop of TickComponent exactly as written: while the time is past
   * the period, subtract the period. Run for at most `fuel` iterations;
   * None means the loop has not exited by then.
   */
  function WrapWithin(time: real, period: real, fuel: nat): (exit: Option<real>)
    ensures time <= period ==> exit == Some(time)
    ensures exit.Some? ==> exit.value <= period
    decreases fuel
  {
    if time > period then
      if fuel == 0 then None else WrapWithin(time - period, period, fuel - 1)
    else
      Some(time)
  }

  /**
   * The wrap with the guard the loop needs: subtract the period while the time is past it,
   * but only when the period is positive.
   */
  function Wrapped(time: real, period: real): real
    decreases if 0.0 < period < time then time / period else 0.0
  {
    if 0.0 < period < time then
      PeriodsDecrease(time, period);
      Wrapped(time - period, period)
    else
      time
  }

  /** The number of subtractions the guarded wrap makes. */
  function WrapCount(time: real, period: real): nat
    decreases if 0.0 < period < time then time / period else 0.0
  {
    if 0.0 < period < time then
      PeriodsDecrease(time, period);
      1 + WrapCount(time - period, period)
    else
      0
  }

  /**
   * What the wrap guarantees: the result differs from the input by a whole
   * number of periods; with a positive period it is at most the period; a time
   * already at most the period (negative times included) is left alone; and a
   * time that was wrapped lands in (0, period].
   */
  lemma {:induction false} WrappedBounds(time: real, period: real)
    ensures Wrapped(time, period) == time - WrapCount(time, period) as real * period
    ensures 0.0 < period ==> Wrapped(time, period) <= period
    ensures time <= period ==> Wrapped(time, period) == time && WrapCount(time, period) == 0
    ensures period <= 0.0 ==> Wrapped(time, period) == time
    ensures WrapCount(time, period) > 0 <==> 0.0 < period < time
    ensures WrapCount(time, period) > 0 ==> 0.0 < Wrapped(time, period) <= period
    decreases if 0.0 < period < time then time / period else 0.0
  {
    if 0.0 < period < time {
      PeriodsDecrease(time, period);
      WrappedBounds(time - period, period);
      var k := WrapCount(time - period, period);
      MulDistributes(period, (k + 1) as real, 1.0);
      assert (k + 1) as real * period == k as real * period + period;
    }
  }

  /** Where the source's loop exits, it exits after WrapCount iterations with the guarded wrap's value. */
  lemma {:induction false} WrapMatchesSourceLoop(time: real, period: real)
    requires 0.0 < period || time <= period
    ensures WrapWithin(time, period, WrapCount(time, period)) == Some(Wrapped(time, period))
    decreases if 0.0 < period < time then time / period else 0.0
  {
    if 0.0 < period < time {
      PeriodsDecrease(time, period);
      WrapMatchesSourceLoop(time - period, period);
      var k := WrapCount(time - period, period);
      assert WrapCount(time, period) == k + 1;
      assert WrapWithin(time, period, k + 1) == WrapWithin(time - period, period, k);
    }
  }

  /** With a period of zero or less and a time past it, the source's loop never exits. */
  lemma {:induction false} SourceLoopDivergesWithoutPeriod(time: real, period: real, fuel: nat)
    requires period <= 0.0 && time > period
    decreases fuel
    ensures WrapWithin(time, period, fuel) == None
  {
    if fuel > 0 {
      SourceLoopDivergesWithoutPeriod(time - period, period, fuel - 1);
    }
  }

  /** The source's loop exits exactly when the period is positive or the time is not past it. */
  lemma SourceLoopExitsIff(time: real, period: real)
    ensures (exists fuel: nat :: WrapWithin(time, period, fuel).Some?) <==> (0.0 < period || time <= period)
  {
    if 0.0 < period || time <= period {
      WrapMatchesSourceLoop(time, period);
    } else {
      forall fuel: nat
        ensures WrapWithin(time, period, fuel) == None
      {
        SourceLoopDivergesWithoutPeriod(time, period, fuel);
      }
    }
  }

  /**
   * A curve built from an empty or one-letter string has period 0, so one tick
   * that moves a non-negative time forward sends the source's loop spinning forever.
   */
  lemma ShortCurveHangsSourceTick(chars: string, timePos: real, deltaTime: real, speed: real, fuel: nat)
    requires |chars| <= 1 && 0.0 <= timePos && 0.0 < deltaTime * speed
    ensures LightStyleCurve(chars).keys != []
    ensures WrapWithin(timePos + deltaTime * speed, LightStyleCurve(chars).LastKeyTime(), fuel) == None
  {
    LightStyleLastKeyTime(chars);
    SourceLoopDivergesWithoutPeriod(timePos + deltaTime * speed, 0.0, fuel);
  }

  /**
   * The wrap loop of TickComponent, with a guard on the period so that a
   * curve whose last key is at time 0 does not spin forever.
   */
  method WrapTimePos(timePos: real, maxTime: real) returns (wrapped: real)
    ensures wrapped == Wrapped(timePos, maxTime)
  {
    wrapped := timePos;
    if maxTime > 0.0 {
      while wrapped > maxTime
        invariant Wrapped(wrapped, maxTime) == Wrapped(timePos, maxTime)
        decreases wrapped / maxTime
      {
        PeriodsDecrease(wrapped, maxTime);
        wrapped := wrapped - maxTime;
      }
    }
  }

  /** GetOwnerRole() == ROLE_Authority || !GetIsReplicated(): may this side drive playback? */
  predicate MayControl(ownerIsAuthority: bool, replicated: bool)
  {
    ownerIsAuthority || !replicated
  }

  class LightFlickerComponent {
    /** The curve library's evaluation function (FRichCurve::Eval). */
    const eval: CurveEval
    /** Configuration set before play. */
    const curveType: LightingCurveType
    const customLightCurveString: string
    const autoPlay: bool
    const minValue: real
    const maxValue: real
    const speed: real

    var timePos: real
    var currentValue: real
    /** The bound curve; None until BeginPlay (the null Curve pointer). */
    var curve: Option<Curve>
    /** Whether the host dispatches ticks to this component. */
    var tickEnabled: bool
    /** Every value OnLightCurveUpdated has broadcast, oldest first. */
    var broadcasts: seq<real>

    /**
     * Ticks only run on a bound curve, a bound curve always has a last key, and
     * the stored value is the last one broadcast (0 before any broadcast).
     */
    ghost predicate Valid()
      reads this
    {
      && (tickEnabled ==> curve.Some?)
      && (curve.Some? ==> curve.value.keys != [])
      && (broadcasts == [] ==> currentValue == 0.0)
      && (broadcasts != [] ==> currentValue == broadcasts[|broadcasts| - 1])
    }

    /** The value the component shows at a time: the curve's value mapped into [minValue, maxValue]. */
    function ValueAt(time: real): real
      reads this
      requires curve.Some?
    {
      Lerp(minValue, maxValue, eval(curve.value, time))
    }

    /** A new component: no curve, time and value 0, ticking off. */
    constructor (eval: CurveEval, curveType: LightingCurveType, customLightCurveString: string,
                 autoPlay: bool, minValue: real, maxValue: real, speed: real)
      ensures Valid()
      ensures this.eval == eval && this.curveType == curveType
      ensures this.customLightCurveString == customLightCurveString && this.autoPlay == autoPlay
      ensures this.minValue == minValue && this.maxValue == maxValue && this.speed == speed
      ensures timePos == 0.0 && currentValue == 0.0 && curve == None && !tickEnabled && broadcasts == []
    {
      this.eval := eval;
      this.curveType := curveType;
      this.customLightCurveString := customLightCurveString;
      this.autoPlay := autoPlay;
      this.minValue := minValue;
      this.maxValue := maxValue;
      this.speed := speed;
      timePos, currentValue := 0.0, 0.0;
      curve := None;
      tickEnabled := false;
      broadcasts := [];
    }

    /** ValueUpdate: recompute the value from the time position and broadcast it. */
    method ValueUpdate()
      requires Valid() && curve.Some?
      modifies this`currentValue, this`broadcasts
      ensures Valid()
      ensures currentValue == ValueAt(timePos)
      ensures broadcasts == old(broadcasts) + [currentValue]
    {
      currentValue := Lerp(minValue, maxValue, eval(curve.value, timePos));
      broadcasts := broadcasts + [currentValue];
    }

    /**
     * Play: on the controlling side, optionally rewind to 0, recompute and
     * broadcast the value, and enable ticking; elsewhere, do nothing.
     */
    method Play(resetTime: bool, ownerIsAuthority: bool, replicated: bool)
      requires Valid()
      requires MayControl(ownerIsAuthority, replicated) ==> curve.Some?
      modifies this`timePos, this`currentValue, this`broadcasts, this`tickEnabled
      ensures Valid()
      ensures !MayControl(ownerIsAuthority, replicated) ==>
        && timePos == old(timePos) && currentValue == old(currentValue)
        && tickEnabled == old(tickEnabled) && broadcasts == old(broadcasts)
      ensures MayControl(ownerIsAuthority, replicated) ==>
        && timePos == (if resetTime then 0.0 else old(timePos))
        && currentValue == ValueAt(timePos)
        && tickEnabled
        && broadcasts == old(broadcasts) + [currentValue]
    {
      if MayControl(ownerIsAuthority, replicated) {
        if resetTime {
          timePos := 0.0;
        }
        ValueUpdate();
        tickEnabled := true;
      }
    }

    /** Pause: on the controlling side, disable ticking; time and value stay as they are. */
    method Pause(ownerIsAuthority: bool, replicated: bool)
      requires Valid()
      modifies this`tickEnabled
      ensures Valid()
      ensures tickEnabled == (old(tickEnabled) && !MayControl(ownerIsAuthority, replicated))
    {
      if MayControl(ownerIsAuthority, replicated) {
        tickEnabled := false;
      }
    }

    /**
     * GetCurrentValue: the value last broadcast (0 before any), without
     * evaluating the curve again.
     */
    function GetCurrentValue(): (value: real)
      reads this
      requires Valid()
      ensures broadcasts == [] ==> value == 0.0
      ensures broadcasts != [] ==> value == broadcasts[|broadcasts| - 1]
    {
      currentValue
    }

    /** OnRep_TimePos: a replicated time position has arrived; recompute and broadcast the value from it. */
    method OnRepTimePos()
      requires Valid() && curve.Some?
      modifies this`currentValue, this`broadcasts
      ensures Valid()
      ensures currentValue == ValueAt(timePos)
      ensures broadcasts == old(broadcasts) + [currentValue]
    {
      ValueUpdate();
    }

    /**
     * TickComponent, when the host dispatches it: advance the time by
     * DeltaTime * Speed, wrap it into the curve's period (guarded against a
     * zero period), then recompute and broadcast the value.
     */
    method TickComponent(deltaTime: real)
      requires Valid()
      modifies this`timePos, this`currentValue, this`broadcasts
      ensures Valid()
      ensures !tickEnabled ==>
        timePos == old(timePos) && currentValue == old(currentValue) && broadcasts == old(broadcasts)
      ensures tickEnabled ==>
        && timePos == Wrapped(old(timePos) + deltaTime * speed, curve.value.LastKeyTime())
        && currentValue == ValueAt(timePos)
        && broadcasts == old(broadcasts) + [currentValue]
    {
      if tickEnabled {
        timePos := timePos + deltaTime * speed;
        var maxTime := curve.value.LastKeyTime();
        timePos := WrapTimePos(timePos, maxTime);
        ValueUpdate();
      }
    }

    /**
     * The binding step of BeginPlay: a Custom type looks its string up in the
     * string cache, any other type looks itself up in the type cache. For a
     * Custom type, `spelling` is the stored key the string matched: the
     * string itself, or an earlier spelling of it in other case.
     */
    method LookUpCurve(helper: LightFlickerHelper) returns (bound: Curve, ghost spelling: string)
      requires helper.Valid()
      modifies helper
      ensures helper.Valid()
      ensures bound == if curveType == Custom then LightStyleCurve(spelling) else TypeCurve(curveType)
      ensures bound.keys != []
      ensures curveType == Custom ==>
        && helper.curves == old(helper.curves)
        && spelling in helper.customCurves && SameKey(spelling, customLightCurveString)
        && (HasKey(old(helper.customCurves), customLightCurveString) ==>
              spelling in old(helper.customCurves) && helper.customCurves == old(helper.customCurves))
        && (!HasKey(old(helper.customCurves), customLightCurveString) ==>
              spelling == customLightCurveString
              && helper.customCurves == old(helper.customCurves)[customLightCurveString := bound])
      ensures curveType != Custom ==>
        && helper.curves == old(helper.curves)[curveType := bound]
        && helper.customCurves == old(helper.customCurves)
    {
      if curveType == Custom {
        bound, spelling := helper.GetLightCurveForString(customLightCurveString);
        LightStyleLastKeyTime(spelling);
      } else {
        bound := helper.GetLightCurve(curveType);
        spelling := customLightCurveString;
        TypeCurveShape(curveType);
      }
    }

    /**
     * BeginPlay: bind the curve (a Custom type through the string cache, any
     * other through the named-style cache), rewind to 0 and, with auto-play,
     * Play from the start.
     */
    method BeginPlay(helper: LightFlickerHelper, ownerIsAuthority: bool, replicated: bool)
      returns (ghost spelling: string)
      requires Valid() && helper.Valid()
      modifies this`curve, this`timePos, this`currentValue, this`broadcasts, this`tickEnabled, helper
      ensures Valid() && helper.Valid()
      ensures curve == Some(if curveType == Custom then LightStyleCurve(spelling)
                            else TypeCurve(curveType))
      ensures curveType == Custom ==>
        && helper.curves == old(helper.curves)
        && spelling in helper.customCurves && SameKey(spelling, customLightCurveString)
        && (HasKey(old(helper.customCurves), customLightCurveString) ==>
              spelling in old(helper.customCurves) && helper.customCurves == old(helper.customCurves))
        && (!HasKey(old(helper.customCurves), customLightCurveString) ==>
              spelling == customLightCurveString
              && helper.customCurves == old(helper.customCurves)[customLightCurveString := curve.value])
      ensures curveType != Custom ==>
        && helper.curves == old(helper.curves)[curveType := curve.value]
        && helper.customCurves == old(helper.customCurves)
      ensures timePos == 0.0
      ensures autoPlay && MayControl(ownerIsAuthority, replicated) ==>
        && currentValue == ValueAt(0.0)
        && tickEnabled
        && broadcasts == old(broadcasts) + [currentValue]
      ensures !(autoPlay && MayControl(ownerIsAuthority, replicated)) ==>
        && currentValue == old(currentValue)
        && tickEnabled == old(tickEnabled)
        && broadcasts == old(broadcasts)
    {
      var bound;
      bound, spelling := LookUpCurve(helper);
      curve := Some(bound);
      timePos := 0.0;
      if autoPlay {
        Play(true, ownerIsAuthority, replicated);
      }
    }
  }
}
