/**
 * The lookup-or-build cache of USsLightFlickerHelper: one map keyed by named
 * style and one keyed by custom string. In the source both maps are static
 * members guarded by one critical section; here they are the fields of one
 * object and every call runs alone.
 */
module CurveRegistry {
  import opened LightCurves

  /** An ASCII upper-case letter becomes its lower-case letter; every other character stays. */
  function FoldChar(c: char): char
  {
    if 'A' <= c <= 'Z' then (c as int + 32) as char else c
  }

  /** A string with every ASCII letter folded to lower case. */
  function Folded(s: string): string
  {
    seq(|s|, i requires 0 <= i < |s| => FoldChar(s[i]))
  }

  /**
   * FString's operator== and GetTypeHash, and so the key comparison of a
   * TMap<FString, ...>: two strings are one key when they differ only in the
   * case of their letters.
   */
  predicate SameKey(a: string, b: string)
  {
    Folded(a) == Folded(b)
  }

  /** Two characters are one character of a key when they are equal or the two cases of one letter. */
  predicate SameKeyChar(c: char, d: char)
  {
    c == d || ('a' <= c <= 'z' && d as int == c as int - 32) || ('a' <= d <= 'z' && c as int == d as int - 32)
  }

  /** Key equality is character by character: equal length, and at each position the same letter up to case. */
  lemma SameKeyIff(a: string, b: string)
    ensures SameKey(a, b) <==> |a| == |b| && forall i :: 0 <= i < |a| ==> SameKeyChar(a[i], b[i])
  {
    if |a| == |b| && forall i :: 0 <= i < |a| ==> SameKeyChar(a[i], b[i]) {
      forall i | 0 <= i < |a|
        ensures Folded(a)[i] == Folded(b)[i]
      {
        assert SameKeyChar(a[i], b[i]);
      }
    }
    if SameKey(a, b) {
      forall i | 0 <= i < |a|
        ensures SameKeyChar(a[i], b[i])
      {
        assert Folded(a)[i] == Folded(b)[i];
      }
    }
  }

  /** "az" and "AZ" are one key of the string cache, though they describe different curves. */
  lemma CaseVariantsShareKey()
    ensures SameKey("az", "AZ")
    ensures LightStyleCurve("az") != LightStyleCurve("AZ")
  {
    assert Folded("AZ")[0] == 'a' && Folded("AZ")[1] == 'z';
    assert Folded("az")[0] == 'a' && Folded("az")[1] == 'z';
    assert Folded("az") == Folded("AZ");
    assert LightStyleCurve("az").keys[0].value == CharLevel('a');
    assert LightStyleCurve("AZ").keys[0].value == CharLevel('A');
  }

  /** Some key of a string cache is the same FString as the given one. */
  ghost predicate HasKey<V>(cache: map<string, V>, s: string)
  {
    exists k :: k in cache && SameKey(k, s)
  }

  /** No two keys of a string cache are the same FString. */
  ghost predicate DistinctKeys<V>(cache: map<string, V>)
  {
    forall a, b :: a in cache && b in cache && SameKey(a, b) ==> a == b
  }

  /** Every entry of the cache is the value the build function gives for its key. */
  ghost predicate Agrees<K, V>(cache: map<K, V>, build: K -> V)
  {
    forall k :: k in cache ==> cache[k] == build(k)
  }

  /** A log of the builds done names each key of the cache exactly once, and nothing else. */
  ghost predicate BuiltOnce<K(!new), V>(log: seq<K>, cache: map<K, V>)
  {
    forall k :: multiset(log)[k] == if k in cache then 1 else 0
  }

  /** Storing the built value of a key keeps a cache in agreement with its build function. */
  lemma StorePreservesAgreement<K, V>(cache: map<K, V>, build: K -> V, key: K)
    requires Agrees(cache, build)
    ensures Agrees(cache[key := build(key)], build)
  {
  }

  /** Logging one build of a key new to the cache, and storing it, keeps every key built once. */
  lemma StorePreservesBuiltOnce<K(!new), V>(log: seq<K>, cache: map<K, V>, key: K, v: V)
    requires BuiltOnce(log, cache) && key !in cache
    ensures BuiltOnce(log + [key], cache[key := v])
  {
    assert multiset(log + [key]) == multiset(log) + multiset{key};
  }

  /** Storing a string that is no key's FString keeps the keys distinct. */
  lemma StorePreservesDistinctKeys<V>(cache: map<string, V>, key: string, v: V)
    requires DistinctKeys(cache) && !HasKey(cache, key)
    ensures DistinctKeys(cache[key := v])
  {
  }

  class LightFlickerHelper {
    /** Curves built for named styles (USsLightFlickerHelper::Curves). */
    var curves: map<LightingCurveType, Curve>
    /** Curves built for custom strings (USsLightFlickerHelper::CustomCurves), under the spelling first requested. */
    var customCurves: map<string, Curve>
    /** Every named style a curve was built for, in order. */
    ghost var builds: seq<LightingCurveType>
    /** Every custom string a curve was built for, in order. */
    ghost var customBuilds: seq<string>

    /**
     * Every cached curve is the one its key describes, no two string keys
     * are the same FString, and every cached curve was built exactly once.
     */
    ghost predicate Valid()
      reads this
    {
      && Agrees(curves, TypeCurve)
      && Agrees(customCurves, LightStyleCurve)
      && DistinctKeys(customCurves)
      && BuiltOnce(builds, curves)
      && BuiltOnce(customBuilds, customCurves)
    }

    /** Both caches start empty, and nothing has been built. */
    constructor ()
      ensures Valid()
      ensures curves == map[] && customCurves == map[]
      ensures builds == [] && customBuilds == []
    {
      curves := map[];
      customCurves := map[];
      builds := [];
      customBuilds := [];
    }

    /**
     * GetLightCurve(ELightingCurveType): return the cached curve for the type,
     * or emplace an empty curve, build it and return it. A hit leaves the cache
     * as it was and builds nothing; a miss builds once and adds this one entry;
     * the string cache is never touched.
     */
    method GetLightCurve(curveType: LightingCurveType) returns (curve: Curve)
      requires Valid()
      modifies this
      ensures Valid()
      ensures curve == TypeCurve(curveType)
      ensures curveType in curves && curves[curveType] == curve
      ensures old(curveType in curves) ==>
        curve == old(curves)[curveType] && curves == old(curves) && builds == old(builds)
      ensures curveType !in old(curves) ==>
        curves == old(curves)[curveType := curve] && builds == old(builds) + [curveType]
      ensures customCurves == old(customCurves) && customBuilds == old(customBuilds)
    {
      if curveType in curves {
        curve := curves[curveType];
      } else {
        // Emplace adds a default-constructed (empty) curve, which is then built in place.
        curve := BuildCurve(curveType, EmptyCurve);
        StorePreservesAgreement(curves, TypeCurve, curveType);
        StorePreservesBuiltOnce(builds, curves, curveType, curve);
        curves := curves[curveType := curve];
        builds := builds + [curveType];
      }
    }

    /**
     * GetLightCurve(const FString&): the same lookup-or-build on the string
     * cache, where a string finds the entry of any spelling that differs from
     * it only in case. On a hit the result is the curve of that stored
     * spelling (`key`); on a miss the string itself is built and stored. The
     * named-style cache is never touched.
     */
    method GetLightCurveForString(curveStr: string) returns (curve: Curve, ghost key: string)
      requires Valid()
      modifies this
      ensures Valid()
      ensures key in customCurves && SameKey(key, curveStr)
      ensures customCurves[key] == curve && curve == LightStyleCurve(key)
      ensures HasKey(old(customCurves), curveStr) ==>
        && key in old(customCurves)
        && customCurves == old(customCurves)
        && customBuilds == old(customBuilds)
      ensures !HasKey(old(customCurves), curveStr) ==>
        && key == curveStr
        && customCurves == old(customCurves)[curveStr := curve]
        && customBuilds == old(customBuilds) + [curveStr]
      ensures curves == old(curves) && builds == old(builds)
    {
      if k :| k in customCurves && SameKey(k, curveStr) {
        curve, key := customCurves[k], k;
      } else {
        // Emplace adds a default-constructed (empty) curve, which is then built in place.
        curve := BuildCurveFromString(curveStr, EmptyCurve);
        key := curveStr;
        StorePreservesAgreement(customCurves, LightStyleCurve, curveStr);
        StorePreservesDistinctKeys(customCurves, curveStr, curve);
        StorePreservesBuiltOnce(customBuilds, customCurves, curveStr, curve);
        customCurves := customCurves[curveStr := curve];
        customBuilds := customBuilds + [curveStr];
      }
    }

    /** EvaluateLightCurve: look the curve up (building it on a miss) and evaluate it at the time. */
    method EvaluateLightCurve(eval: CurveEval, curveType: LightingCurveType, time: real) returns (value: real)
      requires Valid()
      modifies this
      ensures Valid()
      ensures value == eval(TypeCurve(curveType), time)
      ensures curves == old(curves)[curveType := TypeCurve(curveType)]
      ensures old(curveType in curves) ==> builds == old(builds)
      ensures curveType !in old(curves) ==> builds == old(builds) + [curveType]
      ensures customCurves == old(customCurves) && customBuilds == old(customBuilds)
    {
      var curve := GetLightCurve(curveType);
      value := eval(curve, time);
    }
  }
}
