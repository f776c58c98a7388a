# Light flicker curves, modelled in Dafny

This project models the core of `LightFlicker/SsLightFlicker.cpp` from
StevesUnrealUtils: a light-intensity driver that plays Quake light-style
strings (`"mmnmmommommnon..."`, one letter per tenth of a second, `a` darkest)
as keyframe curves.

- **Curve building** (`light_curves.dfy`, module `LightCurves`):
  - The table of named styles is `QuakeCurveSources`.
  - `BuildCurveFromString` turns a string into keys. Key `i` is at time `i * 0.1` with value `(c - 'a') / 24`.
  - An empty string gives the single key `(0, 1)`.
  - `BuildCurve` builds a named style from its table string. A type with no table entry (`Custom`) leaves its curve empty.
- **The cache** (`curve_registry.dfy`, module `CurveRegistry`):
  - Class `LightFlickerHelper` holds the two static maps of `USsLightFlickerHelper`, one keyed by style and one keyed by custom string.
  - Keys of the string map compare as `FString`s do: ignoring the case of letters (`SameKey`). A string finds the entry stored under any spelling of it in other case.
  - On a miss, `GetLightCurve` builds the curve and stores it. On a hit, it returns the stored curve, builds nothing and changes nothing.
  - The invariant `Valid` says every cached curve is the curve its stored key describes, no two string keys are the same `FString`, and a ghost log of builds names every cached key exactly once.
- **The player** (`flicker_component.dfy`, module `Flicker`):
  - Class `LightFlickerComponent` holds the component's `TimePos`, `CurrentValue`, bound curve and tick-enabled flag.
  - It provides `BeginPlay`, `Play`, `Pause`, `ValueUpdate`, `OnRepTimePos`, `GetCurrentValue` and `TickComponent`.
  - The time-wrap loop of `TickComponent` is modelled twice: once as written (`WrapWithin`), and once with the guard it needs (`Wrapped`, `WrapTimePos`). See Findings.

Times and values are exact `real`s. `FRichCurve::Eval` belongs to the curve
library, so the model does not define it. It is a function value
(`CurveEval`) supplied to the component and to `EvaluateLightCurve`.

## Model

| member | source | states |
|---|---|---|
| `LightCurves.QuakeCurveSource` | LightFlicker/SsLightFlicker.cpp:14-26 | The table itself: the source string of each of the eleven named styles, as `QuakeCurveSources.Find` returns it. `Custom` has no entry. Its properties are proved in `QuakeSourcesWellFormed`. |
| `LightCurves.BuildCurveFromString` | LightFlicker/SsLightFlicker.cpp:70-89 | For a non-empty string, exactly one key per character. Key `i` is at time `i * 0.1` with value `(s[i] - 'a') / 24`. An empty string gives exactly the key `(0, 1)`. Keys the output curve held before are discarded. |
| `LightCurves.BuildCurve` | LightFlicker/SsLightFlicker.cpp:61-68 | A type with a table string gives the same curve as building that string. A type without one leaves the output curve as it was, so an emplaced curve stays empty. |
| `LightCurves.LetterLevels` | LightFlicker/SsLightFlicker.cpp:76-79 | `'a'` maps to 0, `'m'` to 1/2 and `'z'` to 25/24. Doubled, these are Quake's original `m == 1` and `z == 2.08`. |
| `LightCurves.CharLevelMonotonic` | LightFlicker/SsLightFlicker.cpp:78-79 | A later letter gives a strictly higher level, and only a later letter does. Equal levels mean equal letters. |
| `LightCurves.LightStyleValuesInRange` | LightFlicker/SsLightFlicker.cpp:74-82 | For a string of lower-case letters, every key value lies in [0, 25/24]. |
| `LightCurves.LightStyleTimesIncreasing` | LightFlicker/SsLightFlicker.cpp:74-82 | The first key is at time 0. Key times are non-negative and strictly increasing, so keys come out in the order they are added. |
| `LightCurves.LightStyleLastKeyTime` | LightFlicker/SsLightFlicker.cpp:74-88 | Every built curve has a last key. For a non-empty string it is at `(len - 1) * 0.1`, for the empty string at 0. The period is never negative. It is 0 exactly when the string has at most one character. |
| `LightCurves.QuakeSourcesWellFormed` | LightFlicker/SsLightFlicker.cpp:14-26 | Every type except `Custom` has a table entry, and no entry is shorter than two characters. |
| `LightCurves.TypeCurveShape` | LightFlicker/SsLightFlicker.cpp:61-68 | By type, `Custom` gets a curve with no keys, and only `Custom` does. Any other type gets the curve of its table string, with a positive period. |
| `CurveRegistry.SameKeyIff` | LightFlicker/SsLightFlicker.cpp:9 | Two strings are one key of `CustomCurves` exactly when they have the same length and, position by position, the same character or the two cases of one ASCII letter. |
| `CurveRegistry.CaseVariantsShareKey` | LightFlicker/SsLightFlicker.cpp:51 | `"az"` and `"AZ"` are one key, yet the strings describe different curves. So a lookup of the second finds the first's curve. |
| `CurveRegistry.LightFlickerHelper.constructor` | LightFlicker/SsLightFlicker.cpp:8-9 | Both caches start empty and consistent, and nothing has been built. |
| `CurveRegistry.LightFlickerHelper.GetLightCurve` | LightFlicker/SsLightFlicker.cpp:33-45 | Returns the curve built for the type. On a hit it returns the stored curve, the map is unchanged and nothing is built. On a miss the curve is built once, and only that key is added, bound to it. The string cache is untouched. The cache stays consistent, with every cached type built exactly once. |
| `CurveRegistry.LightFlickerHelper.GetLightCurveForString` | LightFlicker/SsLightFlicker.cpp:47-59 | The same for the string cache, with keys compared ignoring case. If a stored key is the same `FString`, the result is the curve of that stored spelling, and nothing changes or is built. Otherwise the string itself is built once and added. The type cache is untouched. No two keys become the same `FString`, and every cached string was built exactly once. |
| `CurveRegistry.LightFlickerHelper.EvaluateLightCurve` | LightFlicker/SsLightFlicker.cpp:28-31 | Returns the curve evaluation of the type's curve at the given time. Its cache effect is that of `GetLightCurve`, a build happening only on a miss. |
| `Flicker.Lerp` | LightFlicker/SsLightFlicker.cpp:123 | An alpha of 0 gives `MinValue` and an alpha of 1 gives `MaxValue`. |
| `Flicker.LerpWithinRange` | LightFlicker/SsLightFlicker.cpp:123 | An alpha in [0, 1] gives a value between the two ends, in either order of the ends. |
| `Flicker.WrapWithin` | LightFlicker/SsLightFlicker.cpp:167-170 | The loop as written, with no guard, run for at most `fuel` iterations. A time already at most the period is returned unchanged. Whenever the loop exits, the time is at most the period. |
| `Flicker.WrappedBounds` | LightFlicker/SsLightFlicker.cpp:165-170 | The wrapped time differs from the input by a whole number of periods. With a positive period it is at most the period. A time already at most the period (negative ones included) is unchanged. A time that was wrapped ends in (0, period]. |
| `Flicker.WrapMatchesSourceLoop` | LightFlicker/SsLightFlicker.cpp:167-170 | Whenever the loop as written exits, it exits after `WrapCount` subtractions, with the guarded wrap's value. |
| `Flicker.SourceLoopDivergesWithoutPeriod` | LightFlicker/SsLightFlicker.cpp:167-170 | With a period of 0 (or less) and a time past it, the loop as written has not exited after any number of iterations. |
| `Flicker.SourceLoopExitsIff` | LightFlicker/SsLightFlicker.cpp:167-170 | The loop as written exits if and only if the period is positive or the time is not past it. |
| `Flicker.ShortCurveHangsSourceTick` | LightFlicker/SsLightFlicker.cpp:165-170 | The curve of an empty or one-letter string has period 0. Take any `TimePos >= 0` and any tick with `DeltaTime * Speed > 0`: after that tick the loop as written never exits. |
| `Flicker.WrapTimePos` | LightFlicker/SsLightFlicker.cpp:165-170 | The subtract-while loop, guarded by a positive period. Its result is the guarded wrap `Wrapped`. |
| `Flicker.MayControl` | LightFlicker/SsLightFlicker.cpp:129 | The authority test of `Play` and `Pause` (lines 129 and 143): this side may drive playback when it owns authority or when the component is not replicated. |
| `Flicker.LightFlickerComponent.constructor` | LightFlicker/SsLightFlicker.cpp:91-100 | `TimePos` 0, `CurrentValue` 0, no curve bound, ticking disabled, nothing broadcast. |
| `Flicker.LightFlickerComponent.LookUpCurve` | LightFlicker/SsLightFlicker.cpp:106-113 | The binding step of `BeginPlay`. `Custom` gets, from the string cache, the curve of the stored spelling the custom string matches: an earlier case variant if one is cached, else the string itself. Any other type gets its own curve from the type cache. Only the cache used changes, and the curve always has a last key. |
| `Flicker.LightFlickerComponent.BeginPlay` | LightFlicker/SsLightFlicker.cpp:102-119 | Binds the curve. `Custom` goes through the string cache with the custom string, getting the curve of the stored spelling it matches, any other type through the type cache. Only the cache used changes. `TimePos` becomes 0. With auto-play on the controlling side, the value for time 0 is computed and broadcast and ticking is enabled. Otherwise value, ticking and broadcasts are unchanged. |
| `Flicker.LightFlickerComponent.ValueUpdate` | LightFlicker/SsLightFlicker.cpp:121-125 | `CurrentValue` becomes `Lerp(Min, Max, Eval(curve, TimePos))` and is broadcast once. `TimePos` is not touched. |
| `Flicker.LightFlickerComponent.Play` | LightFlicker/SsLightFlicker.cpp:127-139 | On a non-authoritative replicated side nothing changes. Otherwise: `Play(true)` rewinds to 0 and `Play(false)` keeps `TimePos`. Both recompute and broadcast the value and enable ticking. |
| `Flicker.LightFlickerComponent.Pause` | LightFlicker/SsLightFlicker.cpp:141-147 | On the controlling side, ticking is disabled; elsewhere it is unchanged. Time and value are never touched. |
| `Flicker.LightFlickerComponent.GetCurrentValue` | LightFlicker/SsLightFlicker.cpp:149-152 | Returns the value last broadcast, or 0 before any broadcast. The curve is not evaluated again. `Valid` keeps this, and every method that changes the value broadcasts it. |
| `Flicker.LightFlickerComponent.OnRepTimePos` | LightFlicker/SsLightFlicker.cpp:154-157 | Recomputes and broadcasts the value from the current `TimePos`, as `ValueUpdate` does. |
| `Flicker.LightFlickerComponent.TickComponent` | LightFlicker/SsLightFlicker.cpp:159-172 | With ticking disabled, nothing changes. Otherwise `TimePos + DeltaTime * Speed` is wrapped by the guarded `Wrapped`. This departs from the loop at lines 167-170 when the curve's last-key time is 0: the source then spins forever (see Findings), while the model leaves the time unwrapped. The value for the new time is computed and broadcast. A bound curve always has a last key. |

## Left out

- The critical section (`FScopeLock`). The caches are updated by one caller at a time.
- References. `GetLightCurve` returns a reference into the map, and `BeginPlay` keeps it as the `Curve` pointer, which `ValueUpdate` and `TickComponent` read later. In the model, `GetLightCurve` returns the curve as a value. The model does not cover a reference held across later insertions. A later `Emplace` (lines 42, 56) may reallocate the map's storage, so in the source such a reference may dangle. Nothing here shows whether it does.
- `FRichCurve` internals.
  - `Eval` is a supplied function, so no interpolation or clamping is claimed.
  - `AddKey` appends. The library inserts in time order, and keys arrive in increasing time order, so the two agree here.
  - `GetLastKey` on a curve with no keys is not reachable from the component, because a bound curve always has keys.
- Single-precision rounding of `i * 0.1f`, `/ 24.f`, `Lerp` and the subtraction loop. Exact reals are used instead.
- The enumeration `ELightingCurveType` and the default `bResetTime = true` come from `SsLightFlicker.h`, which is not part of this model. The enumeration is taken to be the eleven table entries plus `Custom`.
- Host plumbing:
  - the constructor's tick settings and the `Super::` calls;
  - per-frame tick dispatch, modelled as the `tickEnabled` flag;
  - `GetOwnerRole` and `GetIsReplicated`, modelled as boolean inputs;
  - `GetLifetimeReplicatedProps`;
  - the replication system's write to `TimePos` before `OnRep_TimePos` runs.
- `OnLightCurveUpdated.Broadcast`. It is recorded as the list of broadcast values; listeners are not modelled.
- The editor-set properties (`CurveType`, `CustomLightCurveString`, `bAutoPlay`, `MinValue`, `MaxValue`, `Speed`). They are fixed at construction, since none of the modelled operations change them.
- `QuakeSourcesWellFormed`: states only that the table strings are long enough. It does not state that every table character is a lower-case letter; `LightStyleValuesInRange` takes that as a requirement.
- A null `Curve`. Before `BeginPlay` the source's `Curve` is `nullptr`, and `ValueUpdate`, `Play` and `OnRep_TimePos` read through it without a check. A replicated `TimePos` that arrives before `BeginPlay` is one way this can happen. The model excludes such calls: `ValueUpdate`, `OnRepTimePos` and the controlling-side `Play` require a bound curve. `TickComponent` gets a bound curve from `Valid`, because ticking is only enabled by a `Play` on a bound curve.
- Case folding beyond ASCII. `SameKey` folds only the letters `A`-`Z`. Whether the engine's case-insensitive `FString` comparison also folds other letters is decided by platform character routines that are not part of this model.
- Text encoding. `FString` holds `TCHAR` code units (UTF-16 on Windows); a Dafny `string` holds Unicode scalar values. A custom string with a character outside the Basic Multilingual Plane therefore gives two keys in the source and one in the model.
- `BeginPlay` without auto-play resets `TimePos` to 0 but does not recompute `CurrentValue`. The model keeps this as written.

## Findings

| source | as written | input that shows it | evidently intended | confidence | as-written member | corrected member |
|---|---|---|---|---|---|---|
| LightFlicker/SsLightFlicker.cpp:165-170 | `while (TimePos > MaxTime) TimePos -= MaxTime;` never exits when `MaxTime` is 0 and `TimePos` is positive | a `Custom` component whose string is empty or one letter (last key at time 0), playing at `Speed` 1, ticked with `DeltaTime` 0.1 | skip the wrap when the last key's time is 0, so that a tick always returns | high; not executed | `Flicker.ShortCurveHangsSourceTick` (with `Flicker.WrapWithin` and `Flicker.SourceLoopDivergesWithoutPeriod`) | `Flicker.WrapTimePos` (its result `Flicker.Wrapped`, whose properties `Flicker.WrappedBounds` proves), used by `Flicker.LightFlickerComponent.TickComponent` |

None of the named styles can cause this. `TypeCurveShape` shows they all have a positive period.
