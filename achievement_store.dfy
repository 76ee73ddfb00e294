/**
 * The achievement store: star counts per activity, kept in a dictionary
 * whose keys are "<type>_<activity>", plus the two rules that turn a
 * game result into a star count.
 */
module Achievements {

  /** The dictionary key of an activity of a given type ("draw", "fill"). */
  function Key(kind: string, activity: string): (k: string)
    ensures |k| == |kind| + 1 + |activity|
    ensures kind + "_" <= k
  {
    kind + "_" + activity
  }

  /**
   * Two different (type, activity) pairs get different keys as long as
   * neither type contains an underscore, as "draw" and "fill" do not.
   */
  lemma KeyInjective(kind1: string, activity1: string, kind2: string, activity2: string)
    requires '_' !in kind1 && '_' !in kind2
    requires Key(kind1, activity1) == Key(kind2, activity2)
    ensures kind1 == kind2 && activity1 == activity2
  {
    var k := Key(kind1, activity1);
    KeyLayout(kind1, activity1);
    KeyLayout(kind2, activity2);
    if |kind1| < |kind2| {
      assert false;
    } else if |kind2| < |kind1| {
      assert false;
    }
    assert kind1 == k[..|kind1|] == kind2;
    assert activity1 == k[|kind1| + 1..] == activity2;
  }

  /** The key is the type, the separator, then the activity. */
  lemma KeyLayout(kind: string, activity: string)
    ensures Key(kind, activity)[..|kind|] == kind
    ensures Key(kind, activity)[|kind|] == '_'
    ensures Key(kind, activity)[|kind| + 1..] == activity
    ensures forall i :: 0 <= i < |kind| ==> Key(kind, activity)[i] == kind[i]
  {
  }

  /** With an underscore in the type, two pairs share one slot. */
  lemma KeyCollision()
    ensures Key("a_b", "c") == Key("a", "b_c")
  {
  }

  /** Sum of the values stored under `keys`. */
  ghost function SumOver(m: map<string, int>, keys: set<string>): int
    requires keys <= m.Keys
    decreases keys
  {
    if keys == {} then 0
    else
      var k :| k in keys;
      m[k] + SumOver(m, keys - {k})
  }

  /** Taking any one key out of the sum first gives the same total. */
  lemma {:induction false} SumOverRemove(m: map<string, int>, keys: set<string>, x: string)
    requires keys <= m.Keys && x in keys
    ensures SumOver(m, keys) == m[x] + SumOver(m, keys - {x})
    decreases keys
  {
    var k :| k in keys && SumOver(m, keys) == m[k] + SumOver(m, keys - {k});
    if k != x {
      SumOverRemove(m, keys - {k}, x);
      SumOverRemove(m, keys - {x}, k);
      assert keys - {k} - {x} == keys - {x} - {k};
    }
  }

  /** The sum only reads the values of the keys it sums. */
  lemma {:induction false} SumOverAgree(m1: map<string, int>, m2: map<string, int>, keys: set<string>)
    requires keys <= m1.Keys && keys <= m2.Keys
    requires forall k :: k in keys ==> m1[k] == m2[k]
    ensures SumOver(m1, keys) == SumOver(m2, keys)
    decreases keys
  {
    if keys != {} {
      var k :| k in keys && SumOver(m1, keys) == m1[k] + SumOver(m1, keys - {k});
      SumOverRemove(m2, keys, k);
      SumOverAgree(m1, m2, keys - {k});
    }
  }

  /** The keys of `m` that begin with `prefix`. */
  function KeysWithPrefix(m: map<string, int>, prefix: string): (ks: set<string>)
    ensures ks <= m.Keys
    ensures forall k :: k in ks <==> k in m && prefix <= k
  {
    set k | k in m.Keys && prefix <= k
  }

  /** `data.filter { $0.key.hasPrefix(prefix) }.values.reduce(0, +)` */
  ghost function PrefixTotal(m: map<string, int>, prefix: string): (total: int)
    ensures (forall k :: k in m ==> !(prefix <= k)) ==> total == 0
  {
    SumOver(m, KeysWithPrefix(m, prefix))
  }

  /**
   * Storing `v` under `key` moves the total of every prefix of `key` by
   * `v` minus what was stored there before (0 when nothing was), and
   * leaves the total of every other prefix as it was.
   */
  lemma PrefixTotalAfterSet(m: map<string, int>, key: string, v: int, prefix: string)
    ensures prefix <= key ==>
      PrefixTotal(m[key := v], prefix)
        == PrefixTotal(m, prefix) - (if key in m then m[key] else 0) + v
    ensures !(prefix <= key) ==> PrefixTotal(m[key := v], prefix) == PrefixTotal(m, prefix)
  {
    var m' := m[key := v];
    var ks, ks' := KeysWithPrefix(m, prefix), KeysWithPrefix(m', prefix);
    var rest := ks - {key};
    SumOverAgree(m, m', rest);
    if prefix <= key {
      assert ks' == rest + {key};
      SumOverRemove(m', ks', key);
      assert ks' - {key} == rest;
      if key in m {
        SumOverRemove(m, ks, key);
      } else {
        assert ks == rest;
      }
    } else {
      assert ks' == rest && ks == rest;
    }
  }

  /** The star rule of the drawing game: coverage >= 95% gives 3, >= 91% gives 2, else 1. */
  function DrawStars(coverage: real): (stars: int)
    ensures 1 <= stars <= 3
    ensures stars == 3 <==> coverage >= 0.95
    ensures stars == 2 <==> 0.91 <= coverage < 0.95
    ensures stars == 1 <==> coverage < 0.91
  {
    if coverage >= 0.95 then 3
    else if coverage >= 0.91 then 2
    else 1
  }

  /** More coverage never earns fewer stars. */
  lemma DrawStarsMonotone(c1: real, c2: real)
    requires c1 <= c2
    ensures DrawStars(c1) <= DrawStars(c2)
  {
  }

  /** 2^53: doubles in [1/2, 1) are the multiples of 1 / Two53. */
  const Two53: int := 0x20_0000_0000_0000
  /** The double nearest 0.95, just below it: 0.95 as a `CGFloat` literal. */
  const Double095: real := 8556839292003942.0 / 9007199254740992.0
  /** The double nearest 0.91, just above it: 0.91 as a `CGFloat` literal. */
  const Double091: real := 8196551321814303.0 / 9007199254740992.0

  /**
   * The star rule of the drawing game as the device evaluates it: the
   * coverage compared with the two thresholds as doubles.
   */
  function DrawStarsOnDoubles(coverage: real): (stars: int)
    ensures 1 <= stars <= 3
    ensures stars == 3 <==> coverage >= Double095
    ensures stars == 2 <==> Double091 <= coverage < Double095
    ensures stars == 1 <==> coverage < Double091
  {
    if coverage >= Double095 then 3
    else if coverage >= Double091 then 2
    else 1
  }

  /**
   * For a coverage ratio k/n with fewer than 2^40 samples, the double
   * m / 2^53 that is at most half a unit (1 / 2^54) from k/n earns the
   * same stars against the rounded thresholds as k/n earns against the
   * exact ones: rounding 0.95 down and 0.91 up never moves a ratio
   * from one band to another.
   */
  lemma DrawStarsOfRoundedRatio(k: int, n: int, m: int)
    requires 0 < n < 0x100_0000_0000
    requires -n <= 2 * (m * n - k * Two53) <= n
    ensures Double095 < 0.95 && 0.91 < Double091
    ensures DrawStarsOnDoubles(m as real / Two53 as real) == DrawStars(k as real / n as real)
  {
    RatioAtLeast(k, n, 19, 20);
    RatioAtLeast(k, n, 91, 100);
    RatioAtLeast(m, Two53, 8556839292003942, Two53);
    RatioAtLeast(m, Two53, 8196551321814303, Two53);
    Band095(k, n, m);
    Band091(k, n, m);
  }

  /**
   * 0.95 = 19/20 and its double a / 2^53 with a = 8556839292003942, which
   * is 8 / (20 * 2^53) below it: k/n reaches 19/20 exactly when its
   * rounding m / 2^53 reaches a / 2^53.
   */
  lemma Band095(k: int, n: int, m: int)
    requires 0 < n < 0x100_0000_0000
    requires -n <= 2 * (m * n - k * Two53) <= n
    ensures 20 * k >= 19 * n <==> m >= 8556839292003942
  {
  }

  /**
   * 0.91 = 91/100 and its double a / 2^53 with a = 8196551321814303, which
   * is 28 / (100 * 2^53) above it: k/n reaches 91/100 exactly when its
   * rounding m / 2^53 reaches a / 2^53.
   */
  lemma Band091(k: int, n: int, m: int)
    requires 0 < n < 0x100_0000_0000
    requires -n <= 2 * (m * n - k * Two53) <= n
    ensures 100 * k >= 91 * n <==> m >= 8196551321814303
  {
  }

  /** Comparing two fractions is comparing the cross products. */
  lemma RatioAtLeast(k: int, n: int, p: int, q: int)
    requires 0 < n && 0 < q
    ensures k as real / n as real >= p as real / q as real <==> q * k >= p * n
  {
  }

  /** The star rule of the word game: no mistake gives 3, one gives 2, more give 1. */
  function FillStars(wrongCount: int): (stars: int)
    ensures 1 <= stars <= 3
    ensures stars == 3 <==> wrongCount == 0
    ensures stars == 2 <==> wrongCount == 1
    ensures stars == 1 <==> wrongCount != 0 && wrongCount != 1
  {
    if wrongCount == 0 then 3
    else if wrongCount == 1 then 2
    else 1
  }

  /** More mistakes never earn more stars (mistake counts are never negative). */
  lemma FillStarsAntitone(w1: int, w2: int)
    requires 0 <= w1 <= w2
    ensures FillStars(w1) >= FillStars(w2)
  {
  }

  /** The store itself; `data` stands for the persisted dictionary. */
  class AchievementStore {
    var data: map<string, int>

    /** A store with nothing saved yet. */
    constructor ()
      ensures data == map[]
    {
      data := map[];
    }

    /** Stars of an activity; 0 for one never rated. */
    function GetStars(activity: string, kind: string): (stars: int)
      reads this
      ensures Key(kind, activity) !in data ==> stars == 0
      ensures Key(kind, activity) in data ==> stars == data[Key(kind, activity)]
    {
      var k := Key(kind, activity);
      if k in data then data[k] else 0
    }

    /** Records the stars of an activity, overwriting an earlier rating. */
    method SetStars(activity: string, kind: string, stars: int)
      modifies this
      ensures data == old(data)[Key(kind, activity) := stars]
      ensures GetStars(activity, kind) == stars
      ensures forall a, t :: Key(t, a) != Key(kind, activity) ==>
        GetStars(a, t) == old(GetStars(a, t))
      ensures forall t :: TotalStars(t) == old(TotalStars(t))
                            + (if t + "_" <= Key(kind, activity) then stars - old(GetStars(activity, kind)) else 0)
    {
      var d := data;
      d := d[Key(kind, activity) := stars];
      data := d;
      forall t
        ensures TotalStars(t) == old(TotalStars(t))
          + (if t + "_" <= Key(kind, activity) then stars - old(GetStars(activity, kind)) else 0)
      {
        PrefixTotalAfterSet(old(data), Key(kind, activity), stars, t + "_");
      }
    }

    /** The sum of all stars recorded under one type. */
    ghost function TotalStars(kind: string): (total: int)
      reads this
      ensures (forall k :: k in data ==> !(kind + "_" <= k)) ==> total == 0
    {
      PrefixTotal(data, kind + "_")
    }
  }
}
