/**
 * Construction of light curves from Quake light-style strings
 * (USsLightFlickerHelper::BuildCurve and the QuakeCurveSources table).
 *
 * A curve is the ordered list of its (time, value) keys. Times and values are
 * exact reals: the single-precision rounding of `i * 0.1f` and `/ 24.f` is not
 * modelled.
 */
module LightCurves {
  import opened Wrappers

  /** The named light styles (ELightingCurveType); `Custom` selects a user string. */
  datatype LightingCurveType =
    | Flicker1
    | SlowStrongPulse
    | Candle1
    | FastStrobe
    | GentlePulse1
    | Flicker2
    | Candle2
    | Candle3
    | SlowStrobe
    | FlourescentFlicker
    | SlowPulseNoBlack
    | Custom

  /** One keyframe of a curve. */
  datatype Key = Key(time: real, value: real)

  /** A keyframe curve (FRichCurve), reduced to its list of keys. */
  datatype Curve = Curve(keys: seq<Key>) {

    /** The time of the last key (FRichCurve::GetLastKey().Time), which a curve without keys does not have. */
    function LastKeyTime(): real
      requires keys != []
    {
      keys[|keys| - 1].time
    }
  }

  /** A default-constructed curve: no keys at all. */
  const EmptyCurve: Curve := Curve([])

  /**
   * Evaluation of a curve at a time (FRichCurve::Eval). Its interpolation
   * belongs to the curve library, so the model takes it as a parameter.
   */
  type CurveEval = (Curve, real) -> real

  /**
   * The table of source strings (QuakeCurveSources): the string of each named
   * light style, as QuakeCurveSources.Find gives it; `Custom` has no entry.
   */
  function QuakeCurveSource(curveType: LightingCurveType): Option<string>
  {
    match curveType
    case Flicker1 => Some("mmnmmommommnonmmonqnmmo")
    case SlowStrongPulse => Some("abcdefghijklmnopqrstuvwxyzyxwvutsrqponmlkjihgfedcba")
    case Candle1 => Some("mmmmmaaaaammmmmaaaaaabcdefgabcdefg")
    case FastStrobe => Some("mamamamamama")
    case GentlePulse1 => Some("jklmnopqrstuvwxyzyxwvutsrqponmlkj")
    case Flicker2 => Some("nmonqnmomnmomomno")
    case Candle2 => Some("mmmaaaabcdefgmmmmaaaammmaamm")
    case Candle3 => Some("mmmaaammmaaammmabcdefaaaammmmabcdefmmmaaaa")
    case SlowStrobe => Some("aaaaaaaazzzzzzzz")
    case FlourescentFlicker => Some("mmamammmmammamamaaamammma")
    case SlowPulseNoBlack => Some("abcdefghijklmnopqrrqponmlkjihgfedcba")
    case Custom => None
  }

  /** The level a light-style character stands for: its distance from 'a', divided by 24. */
  function CharLevel(c: char): real
  {
    (c as int - 'a' as int) as real / 24.0
  }

  /** The time of the key built from the character at position i: one tenth of a second per character. */
  function KeyTime(i: nat): real
  {
    i as real * 0.1
  }

  /** The key built from the character at position i of a light-style string. */
  function CharKey(chars: string, i: nat): Key
    requires i < |chars|
  {
    Key(KeyTime(i), CharLevel(chars[i]))
  }

  /** The curve a light-style string describes; an empty string gives the constant curve 1. */
  function LightStyleCurve(chars: string): Curve
  {
    if |chars| == 0 then Curve([Key(0.0, 1.0)])
    else Curve(seq(|chars|, i requires 0 <= i < |chars| => CharKey(chars, i)))
  }

  /** The curve built for a named light style into a freshly emplaced (empty) curve. */
  function TypeCurve(curveType: LightingCurveType): Curve
  {
    match QuakeCurveSource(curveType)
    case Some(chars) => LightStyleCurve(chars)
    case None => EmptyCurve
  }

  /** Every character is one of the 26 lower-case light levels. */
  predicate IsLightStyle(chars: string)
  {
    forall i :: 0 <= i < |chars| ==> 'a' <= chars[i] <= 'z'
  }

  /**
   * BuildCurve(const FString&, FRichCurve&): reset the output curve, add one
   * key per character, and add the key (0, 1) when the string is empty.
   * Keys are added in increasing time order, so the library's ordered
   * insertion is an append here. Whatever keys `outCurve` held are discarded.
   */
  method BuildCurveFromString(chars: string, outCurve: Curve) returns (built: Curve)
    ensures |chars| > 0 ==> |built.keys| == |chars|
    ensures forall i :: 0 <= i < |chars| ==> built.keys[i] == Key(i as real * 0.1, CharLevel(chars[i]))
    ensures |chars| == 0 ==> built.keys == [Key(0.0, 1.0)]
    ensures built == LightStyleCurve(chars)
  {
    var keys := outCurve.keys;
    keys := [];
    for i := 0 to |chars|
      invariant |keys| == i
      invariant forall j :: 0 <= j < i ==> keys[j] == CharKey(chars, j)
    {
      var charIndex := chars[i] as int - 'a' as int;
      var val := charIndex as real / 24.0;
      keys := keys + [Key(i as real * 0.1, val)];
    }
    if |chars| == 0 {
      keys := keys + [Key(0.0, 1.0)];
    }
    built := Curve(keys);
  }

  /**
   * BuildCurve(ELightingCurveType, FRichCurve&): a named style with a source
   * string is built from that string; any other type leaves the curve as it was.
   */
  method BuildCurve(curveType: LightingCurveType, outCurve: Curve) returns (built: Curve)
    ensures QuakeCurveSource(curveType).Some? ==> built == LightStyleCurve(QuakeCurveSource(curveType).value)
    ensures QuakeCurveSource(curveType).None? ==> built == outCurve
    ensures outCurve == EmptyCurve ==> built == TypeCurve(curveType)
  {
    built := outCurve;
    var source := QuakeCurveSource(curveType);
    if source.Some? {
      built := BuildCurveFromString(source.value, outCurve);
    }
  }

  /** The letter scale: 'a' is 0, 'm' is 1/2 and 'z' is 25/24, i.e. Quake's m == 1 and z == 2.08 halved. */
  lemma LetterLevels()
    ensures CharLevel('a') == 0.0
    ensures CharLevel('m') == 0.5 && 2.0 * CharLevel('m') == 1.0
    ensures CharLevel('z') == 25.0 / 24.0 && 2.0 * CharLevel('z') == 25.0 / 12.0
  {
  }

  /** A later letter is a brighter level, and only a later letter is. */
  lemma CharLevelMonotonic(c: char, d: char)
    ensures c < d <==> CharLevel(c) < CharLevel(d)
    ensures c == d <==> CharLevel(c) == CharLevel(d)
  {
  }

  /** The levels of a lower-case light-style string lie between 0 and 25/24. */
  lemma LightStyleValuesInRange(chars: string)
    requires IsLightStyle(chars)
    ensures forall k :: k in LightStyleCurve(chars).keys ==> 0.0 <= k.value <= 25.0 / 24.0
  {
  }

  /** Key times start at 0 and strictly increase, so the curve's keys are sorted and distinct. */
  lemma LightStyleTimesIncreasing(chars: string)
    ensures LightStyleCurve(chars).keys[0].time == 0.0
    ensures forall i, j :: 0 <= i < j < |LightStyleCurve(chars).keys| ==>
      0.0 <= LightStyleCurve(chars).keys[i].time < LightStyleCurve(chars).keys[j].time
  {
  }

  /**
   * The period of a built curve: its last key is at (len - 1) / 10 seconds, or
   * at 0 for the empty string; so the period is 0 exactly when the string has
   * at most one character.
   */
  lemma LightStyleLastKeyTime(chars: string)
    ensures LightStyleCurve(chars).keys != []
    ensures LightStyleCurve(chars).LastKeyTime() == if |chars| == 0 then 0.0 else (|chars| - 1) as real * 0.1
    ensures LightStyleCurve(chars).LastKeyTime() >= 0.0
    ensures LightStyleCurve(chars).LastKeyTime() == 0.0 <==> |chars| <= 1
  {
  }

  /** Every named style except `Custom` has a source string of at least two characters. */
  lemma QuakeSourcesWellFormed()
    ensures forall t :: QuakeCurveSource(t).Some? <==> t != Custom
    ensures forall t :: QuakeCurveSource(t).Some? ==> |QuakeCurveSource(t).value| >= 2
  {
    forall t
      ensures QuakeCurveSource(t).Some? <==> t != Custom
      ensures QuakeCurveSource(t).Some? ==> |QuakeCurveSource(t).value| >= 2
    {
      match t
      case Flicker1 =>
      case SlowStrongPulse =>
      case Candle1 =>
      case FastStrobe =>
      case GentlePulse1 =>
      case Flicker2 =>
      case Candle2 =>
      case Candle3 =>
      case SlowStrobe =>
      case FlourescentFlicker =>
      case SlowPulseNoBlack =>
      case Custom =>
    }
  }

  /**
   * A named style is built from its own string and has a positive period;
   * `Custom` looked up by type has no keys at all.
   */
  lemma TypeCurveShape(curveType: LightingCurveType)
    ensures curveType == Custom <==> TypeCurve(curveType).keys == []
    ensures curveType != Custom ==>
      TypeCurve(curveType) == LightStyleCurve(QuakeCurveSource(curveType).value) &&
      TypeCurve(curveType).LastKeyTime() > 0.0
  {
    QuakeSourcesWellFormed();
    if curveType != Custom {
      LightStyleLastKeyTime(QuakeCurveSource(curveType).value);
    }
  }
}
