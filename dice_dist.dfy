/**
 * The numerical probability distribution of a roll of oathsworn dice
 * (oathsworn_dice_distribution/gen_prob_dist.py): every sample rolls one
 * face of each die named in the parameter, and the roll is counted in a
 * bucket, 0 when more than one face shows 0 and the sum of the faces
 * otherwise. The counts are then divided by the constant 10000.
 *
 * `random.choice` is replaced by given picks: sample `s` rolls face
 * `picks[s][j]` of die `param[j]`.
 */
module DiceDistribution {

  /** Die names (single characters) to their faces, as read from `dice.json`. */
  type Dice = map<char, seq<int>>

  /** `NO_OF_SAMPLES`, the divisor of every count whatever the number of samples. */
  const NO_OF_SAMPLES: nat := 10000

  /** Every character of the parameter names a die. */
  predicate ParameterKnown(param: string, dice: Dice)
  {
    forall j :: 0 <= j < |param| ==> param[j] in dice
  }

  /** One pick per die of the parameter, each an index into that die's faces. */
  predicate PickValid(param: string, dice: Dice, pick: seq<nat>)
    requires ParameterKnown(param, dice)
  {
    |pick| == |param| && forall j :: 0 <= j < |param| ==> pick[j] < |dice[param[j]]|
  }

  predicate PicksValid(param: string, dice: Dice, picks: seq<seq<nat>>)
    requires ParameterKnown(param, dice)
  {
    forall s :: 0 <= s < |picks| ==> PickValid(param, dice, picks[s])
  }

  /** `[random.choice(dict_dice[die]) for die in param]`: one face of each die, in parameter order. */
  function Roll(param: string, dice: Dice, pick: seq<nat>): (r: seq<int>)
    requires ParameterKnown(param, dice) && PickValid(param, dice, pick)
    ensures |r| == |param|
    ensures forall j :: 0 <= j < |param| ==> r[j] in dice[param[j]]
  {
    seq(|param|, j requires 0 <= j < |param| => dice[param[j]][pick[j]])
  }

  function Sum(xs: seq<int>): int
  {
    if |xs| == 0 then 0 else Sum(xs[..|xs| - 1]) + xs[|xs| - 1]
  }

  /** The bucket of a roll: 0 when `roll.count(0) > 1`, else `sum(roll)`. */
  function Bucket(roll: seq<int>): int
  {
    if multiset(roll)[0] > 1 then 0 else Sum(roll)
  }

  /** A roll showing 0 on two different dice goes to bucket 0. */
  lemma TwoZerosBucket(roll: seq<int>, i: nat, j: nat)
    requires i < j < |roll| && roll[i] == 0 && roll[j] == 0
    ensures Bucket(roll) == 0
  {
    assert roll == roll[..i] + [roll[i]] + roll[i + 1..j] + [roll[j]] + roll[j + 1..];
    assert multiset(roll)[0] >= 2;
  }

  /** A roll showing 0 on at most one die goes to the bucket of its sum. */
  lemma {:induction false} AtMostOneZeroBucket(roll: seq<int>)
    requires forall i, j :: 0 <= i < j < |roll| && roll[i] == 0 ==> roll[j] != 0
    ensures Bucket(roll) == Sum(roll)
  {
    assert multiset(roll)[0] <= 1 by {
      ZerosAtMostOne(roll);
    }
  }

  lemma {:induction false} ZerosAtMostOne(roll: seq<int>)
    requires forall i, j :: 0 <= i < j < |roll| && roll[i] == 0 ==> roll[j] != 0
    ensures multiset(roll)[0] <= 1
    decreases |roll|
  {
    if |roll| > 0 {
      var init := roll[..|roll| - 1];
      assert roll == init + [roll[|roll| - 1]];
      ZerosAtMostOne(init);
      if roll[|roll| - 1] == 0 {
        assert 0 !in init by {
          forall i | 0 <= i < |init| ensures init[i] != 0 {
            assert roll[i] == init[i];
          }
        }
      }
    }
  }

  /**
   * The bucket of every sample, in sample order. The ensures only unfold the
   * body for the proofs; the tally of these buckets is stated by `TallyCount`.
   */
  function Buckets(param: string, dice: Dice, picks: seq<seq<nat>>): (r: seq<int>)
    requires ParameterKnown(param, dice) && PicksValid(param, dice, picks)
    ensures |r| == |picks|
    ensures forall s :: 0 <= s < |picks| ==> r[s] == Bucket(Roll(param, dice, picks[s]))
  {
    seq(|picks|, s requires 0 <= s < |picks| => Bucket(Roll(param, dice, picks[s])))
  }

  /** `distribution[b] = distribution.get(b, 0) + 1`. */
  function Increment(m: map<int, nat>, b: int): map<int, nat>
  {
    m[b := (if b in m then m[b] else 0) + 1]
  }

  /** The histogram the sample loop builds from a sequence of buckets. */
  function Tally(bs: seq<int>): map<int, nat>
  {
    if |bs| == 0 then map[] else Increment(Tally(bs[..|bs| - 1]), bs[|bs| - 1])
  }

  lemma TallyStep(bs: seq<int>, i: nat)
    requires i < |bs|
    ensures Tally(bs[..i + 1]) == Increment(Tally(bs[..i]), bs[i])
  {
    assert bs[..i + 1][..i] == bs[..i];
  }

  /** The keys of the histogram are exactly the buckets hit. */
  lemma {:induction false} TallyKeys(bs: seq<int>)
    ensures forall k :: k in Tally(bs) <==> k in bs
    decreases |bs|
  {
    if |bs| > 0 {
      var init := bs[..|bs| - 1];
      TallyKeys(init);
      assert bs == init + [bs[|bs| - 1]];
    }
  }

  /** Each bucket is counted as often as samples fall into it. */
  lemma {:induction false} TallyCount(bs: seq<int>, k: int)
    ensures k in Tally(bs) ==> Tally(bs)[k] == multiset(bs)[k]
    ensures k !in Tally(bs) ==> multiset(bs)[k] == 0
    decreases |bs|
  {
    if |bs| > 0 {
      var init := bs[..|bs| - 1];
      TallyCount(init, k);
      assert bs == init + [bs[|bs| - 1]];
    }
  }

  /** `ks` lists each key of a map exactly once, in some order (the order of `dict.items()`). */
  predicate Enumerates<K>(ks: seq<K>, keys: set<K>)
  {
    && (forall i, j :: 0 <= i < j < |ks| ==> ks[i] != ks[j])
    && (forall k :: k in keys ==> k in ks)
    && (forall i :: 0 <= i < |ks| ==> ks[i] in keys)
  }

  /** The sum of the counts at the keys `ks`. */
  function SumOver<K>(m: map<K, nat>, ks: seq<K>): nat
    requires forall i :: 0 <= i < |ks| ==> ks[i] in m
  {
    if |ks| == 0 then 0 else SumOver(m, ks[..|ks| - 1]) + m[ks[|ks| - 1]]
  }

  /** The sum of the multiplicities of the keys `ks` in `ms`. */
  function Occurrences<T>(ms: multiset<T>, ks: seq<T>): nat
  {
    if |ks| == 0 then 0 else Occurrences(ms, ks[..|ks| - 1]) + ms[ks[|ks| - 1]]
  }

  lemma {:induction false} OccurrencesAbsent<T>(ms: multiset<T>, x: T, ks: seq<T>)
    requires x !in ks
    ensures Occurrences(ms + multiset{x}, ks) == Occurrences(ms, ks)
    decreases |ks|
  {
    if |ks| > 0 {
      OccurrencesAbsent(ms, x, ks[..|ks| - 1]);
    }
  }

  /** One more element listed once in `ks` adds one. */
  lemma {:induction false} OccurrencesAdd<T>(ms: multiset<T>, x: T, ks: seq<T>)
    requires forall i, j :: 0 <= i < j < |ks| ==> ks[i] != ks[j]
    requires x in ks
    ensures Occurrences(ms + multiset{x}, ks) == Occurrences(ms, ks) + 1
    decreases |ks|
  {
    var init := ks[..|ks| - 1];
    if ks[|ks| - 1] == x {
      assert x !in init by {
        forall i | 0 <= i < |init| ensures init[i] != x {
          assert init[i] == ks[i];
        }
      }
      OccurrencesAbsent(ms, x, init);
    } else {
      assert x in init by {
        var i :| 0 <= i < |ks| && ks[i] == x;
        assert init[i] == x;
      }
      OccurrencesAdd(ms, x, init);
    }
  }

  /** Listing every element of `bs` once gives back the length of `bs`. */
  lemma {:induction false} OccurrencesAll<T>(bs: seq<T>, ks: seq<T>)
    requires forall i, j :: 0 <= i < j < |ks| ==> ks[i] != ks[j]
    requires forall b :: b in bs ==> b in ks
    ensures Occurrences(multiset(bs), ks) == |bs|
    decreases |bs|
  {
    if |bs| == 0 {
      OccurrencesEmpty(ks);
    } else {
      var init := bs[..|bs| - 1];
      assert bs == init + [bs[|bs| - 1]];
      OccurrencesAll(init, ks);
      OccurrencesAdd(multiset(init), bs[|bs| - 1], ks);
    }
  }

  lemma {:induction false} OccurrencesEmpty<T>(ks: seq<T>)
    ensures Occurrences(multiset{}, ks) == 0
    decreases |ks|
  {
    if |ks| > 0 {
      OccurrencesEmpty(ks[..|ks| - 1]);
    }
  }

  lemma {:induction false} SumOverCounts<K>(m: map<K, nat>, ms: multiset<K>, ks: seq<K>)
    requires forall i :: 0 <= i < |ks| ==> ks[i] in m && m[ks[i]] == ms[ks[i]]
    ensures SumOver(m, ks) == Occurrences(ms, ks)
    decreases |ks|
  {
    if |ks| > 0 {
      SumOverCounts(m, ms, ks[..|ks| - 1]);
    }
  }

  /** Every sample increments exactly one bucket: the counts sum to the number of samples. */
  lemma TallyTotal(bs: seq<int>, ks: seq<int>)
    requires Enumerates(ks, Tally(bs).Keys)
    ensures SumOver(Tally(bs), ks) == |bs|
  {
    TallyKeys(bs);
    forall i | 0 <= i < |ks| ensures Tally(bs)[ks[i]] == multiset(bs)[ks[i]] {
      TallyCount(bs, ks[i]);
    }
    SumOverCounts(Tally(bs), multiset(bs), ks);
    forall b | b in bs ensures b in ks {
      assert b in Tally(bs).Keys;
    }
    OccurrencesAll(bs, ks);
  }

  /**
   * `{k: v / NO_OF_SAMPLES for k, v in distribution.items()}`. The ensures only
   * unfold the body for the proofs; its total is stated by `NormaliseMass`.
   */
  function Normalise(m: map<int, nat>): (r: map<int, real>)
    ensures r.Keys == m.Keys
    ensures forall k :: k in m ==> r[k] * NO_OF_SAMPLES as real == m[k] as real
  {
    map k | k in m :: m[k] as real / NO_OF_SAMPLES as real
  }

  /** The sum of the probabilities at the keys `ks`. */
  function MassOver(m: map<int, real>, ks: seq<int>): real
    requires forall i :: 0 <= i < |ks| ==> ks[i] in m
  {
    if |ks| == 0 then 0.0 else MassOver(m, ks[..|ks| - 1]) + m[ks[|ks| - 1]]
  }

  /** Normalising divides the total by `NO_OF_SAMPLES`. */
  lemma {:induction false} NormaliseMass(m: map<int, nat>, ks: seq<int>)
    requires forall i :: 0 <= i < |ks| ==> ks[i] in m
    ensures MassOver(Normalise(m), ks) == SumOver(m, ks) as real / NO_OF_SAMPLES as real
    decreases |ks|
  {
    if |ks| > 0 {
      NormaliseMass(m, ks[..|ks| - 1]);
    }
  }

  /** What `gen_prob_dist` returns for the given picks. */
  function DistributionOf(param: string, dice: Dice, picks: seq<seq<nat>>): map<int, real>
    requires ParameterKnown(param, dice) && PicksValid(param, dice, picks)
  {
    Normalise(Tally(Buckets(param, dice, picks)))
  }

  /** `gen_prob_dist(param, dict_dice, no_of_samples)` with one pick per sample. */
  method GenProbDist(param: string, dice: Dice, picks: seq<seq<nat>>) returns (distribution: map<int, real>)
    requires ParameterKnown(param, dice) && PicksValid(param, dice, picks)
    ensures distribution == DistributionOf(param, dice, picks)
  {
    ghost var bs := Buckets(param, dice, picks);
    var counts: map<int, nat> := map[];
    for i := 0 to |picks|
      invariant counts == Tally(bs[..i])
    {
      var roll := Roll(param, dice, picks[i]);
      TallyStep(bs, i);
      if multiset(roll)[0] > 1 {
        counts := Increment(counts, 0);
      } else {
        var value := Sum(roll);
        counts := Increment(counts, value);
      }
    }
    assert bs[..|picks|] == bs;
    distribution := Normalise(counts);
  }

  /**
   * The distribution's keys are exactly the buckets some sample hit, each
   * bucket's probability is its number of samples over 10000.
   */
  lemma DistributionMeaning(param: string, dice: Dice, picks: seq<seq<nat>>)
    requires ParameterKnown(param, dice) && PicksValid(param, dice, picks)
    ensures var d := DistributionOf(param, dice, picks);
      var bs := Buckets(param, dice, picks);
      && (forall k :: k in d <==> k in bs)
      && (forall k :: k in d ==> d[k] * NO_OF_SAMPLES as real == multiset(bs)[k] as real)
  {
    var bs := Buckets(param, dice, picks);
    TallyKeys(bs);
    forall k | k in Tally(bs) ensures Tally(bs)[k] == multiset(bs)[k] {
      TallyCount(bs, k);
    }
  }

  /** Listed in any order, the probabilities sum to the number of samples over 10000, not to 1. */
  lemma DistributionMass(param: string, dice: Dice, picks: seq<seq<nat>>, ks: seq<int>)
    requires ParameterKnown(param, dice) && PicksValid(param, dice, picks)
    requires Enumerates(ks, DistributionOf(param, dice, picks).Keys)
    ensures MassOver(DistributionOf(param, dice, picks), ks) == |picks| as real / NO_OF_SAMPLES as real
  {
    var bs := Buckets(param, dice, picks);
    TallyTotal(bs, ks);
    NormaliseMass(Tally(bs), ks);
  }

  /** With the default `NO_OF_SAMPLES` samples the probabilities, listed in any order, sum to 1. */
  lemma FullSampleMass(param: string, dice: Dice, picks: seq<seq<nat>>)
    requires ParameterKnown(param, dice) && PicksValid(param, dice, picks)
    requires |picks| == NO_OF_SAMPLES
    ensures forall ks :: Enumerates(ks, DistributionOf(param, dice, picks).Keys) ==>
      MassOver(DistributionOf(param, dice, picks), ks) == 1.0
  {
    forall ks | Enumerates(ks, DistributionOf(param, dice, picks).Keys)
      ensures MassOver(DistributionOf(param, dice, picks), ks) == 1.0
    {
      DistributionMass(param, dice, picks, ks);
    }
  }

  /**
   * The command line: a parameter with a character that names no die is
   * rejected with exit status -1; otherwise the distribution of the default
   * `NO_OF_SAMPLES` samples is computed, and it sums to 1.
   */
  method Run(param: string, dice: Dice, picks: seq<seq<nat>>) returns (status: int, distribution: map<int, real>)
    requires |picks| == NO_OF_SAMPLES
    requires ParameterKnown(param, dice) ==> PicksValid(param, dice, picks)
    ensures status == -1 <==> exists j :: 0 <= j < |param| && param[j] !in dice
    ensures status != -1 ==> status == 0 && ParameterKnown(param, dice)
    ensures status == 0 ==> distribution == DistributionOf(param, dice, picks)
    ensures status == 0 ==> forall ks :: Enumerates(ks, distribution.Keys) ==> MassOver(distribution, ks) == 1.0
  {
    var j := 0;
    while j < |param|
      invariant 0 <= j <= |param|
      invariant forall i :: 0 <= i < j ==> param[i] in dice
    {
      if param[j] !in dice {
        return -1, map[];
      }
      j := j + 1;
    }
    status := 0;
    distribution := GenProbDist(param, dice, picks);
    FullSampleMass(param, dice, picks);
  }
}
