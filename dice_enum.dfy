/**
 * The table of every distribution parameter
 * (oathsworn_dice_distribution/gen_all_prob_dist.py): for every number of
 * dice from 1 to 10 and every tuple of die names of that length, the tuple
 * is sorted into a key, and the key records how many of each die it holds;
 * afterwards every entry gets the distribution of its own key.
 */
module DiceEnumeration {
  import opened Wrappers
  import opened DiceDistribution

  /** `MAX_ROLLS`. */
  const MAX_ROLLS: nat := 10

  /** An entry of `dict_prob_dists`: its "parameter", and its "distribution" once filled. */
  datatype Entry = Entry(parameter: map<char, nat>, distribution: Option<map<int, real>>)

  /** `[x] + t` for every `t` of `ts`. */
  function Prefixed(x: char, ts: seq<string>): (r: seq<string>)
    ensures |r| == |ts|
    ensures forall i :: 0 <= i < |ts| ==> r[i] == [x] + ts[i]
  {
    seq(|ts|, i requires 0 <= i < |ts| => [x] + ts[i])
  }

  /** Every `[x] + t`, with `x` from `xs` varying slowest. */
  function Extended(xs: seq<char>, ts: seq<string>): (r: seq<string>)
    ensures |r| == |xs| * |ts|
  {
    if |xs| == 0 then [] else Prefixed(xs[0], ts) + Extended(xs[1..], ts)
  }

  /** `itertools.product(names, repeat=n)`, tuples as strings, in its order. */
  function Product(names: seq<char>, n: nat): seq<string>
  {
    if n == 0 then [""] else Extended(names, Product(names, n - 1))
  }

  /** A string of die names. */
  predicate Over(t: string, names: seq<char>)
  {
    forall i :: 0 <= i < |t| ==> t[i] in names
  }

  lemma {:induction false} ExtendedMembers(xs: seq<char>, ts: seq<string>, t: string)
    ensures t in Extended(xs, ts) <==> |t| >= 1 && t[0] in xs && t[1..] in ts
    decreases |xs|
  {
    if |xs| > 0 {
      ExtendedMembers(xs[1..], ts, t);
      if t in Prefixed(xs[0], ts) {
        var i :| 0 <= i < |ts| && Prefixed(xs[0], ts)[i] == t;
        assert t[1..] == ts[i];
      }
      if |t| >= 1 && t[0] == xs[0] && t[1..] in ts {
        var i :| 0 <= i < |ts| && ts[i] == t[1..];
        assert Prefixed(xs[0], ts)[i] == t;
      }
      if |t| >= 1 && t[0] in xs[1..] {
        assert t[0] in xs;
      }
      if |t| >= 1 && t[0] in xs && t[0] != xs[0] {
        var i :| 0 <= i < |xs| && xs[i] == t[0];
        assert xs[1..][i - 1] == t[0];
      }
    }
  }

  /** `product` visits every tuple of `n` die names, and only those. */
  lemma {:induction false} ProductMembers(names: seq<char>, n: nat, t: string)
    ensures t in Product(names, n) <==> |t| == n && Over(t, names)
    decreases n
  {
    if n > 0 {
      ExtendedMembers(names, Product(names, n - 1), t);
      if |t| >= 1 {
        ProductMembers(names, n - 1, t[1..]);
        if Over(t, names) {
          assert Over(t[1..], names) by {
            forall i | 0 <= i < |t[1..]| ensures t[1..][i] in names {
              assert t[1..][i] == t[i + 1];
            }
          }
        }
        if t[0] in names && Over(t[1..], names) {
          forall i | 0 <= i < |t| ensures t[i] in names {
            if i > 0 {
              assert t[i] == t[1..][i - 1];
            }
          }
        }
      }
    }
  }

  /** There are `|names|^n` tuples. */
  function Power(b: nat, n: nat): nat
  {
    if n == 0 then 1 else b * Power(b, n - 1)
  }

  lemma {:induction false} ProductSize(names: seq<char>, n: nat)
    ensures |Product(names, n)| == Power(|names|, n)
    decreases n
  {
    if n > 0 {
      ProductSize(names, n - 1);
    }
  }

  predicate Sorted(s: string)
  {
    forall p, q :: 0 <= p < q < |s| ==> s[p] <= s[q]
  }

  /** `k` is `t` sorted: a non-decreasing permutation of it. */
  predicate SortOf(k: string, t: string)
  {
    Sorted(k) && multiset(k) == multiset(t)
  }

  lemma SortedTail(a: string)
    requires Sorted(a) && |a| > 0
    ensures Sorted(a[1..])
  {
    forall p, q | 0 <= p < q < |a[1..]| ensures a[1..][p] <= a[1..][q] {
      assert a[1..][p] == a[p + 1] && a[1..][q] == a[q + 1];
    }
  }

  /** Two sorted arrangements of one multiset start with its least element. */
  lemma SortedHead(a: string, b: string)
    requires Sorted(a) && Sorted(b) && multiset(a) == multiset(b) && |a| > 0
    ensures |b| > 0 && a[0] == b[0]
  {
    assert a[0] in multiset(b);
    var i :| 0 <= i < |b| && b[i] == a[0];
    assert b[0] in multiset(a);
    var j :| 0 <= j < |a| && a[j] == b[0];
    assert b[0] <= b[i] && a[0] <= a[j];
  }

  lemma MultisetTail(a: string, b: string)
    requires |a| > 0 && |b| > 0 && a[0] == b[0] && multiset(a) == multiset(b)
    ensures multiset(a[1..]) == multiset(b[1..])
  {
    assert a == [a[0]] + a[1..] && b == [b[0]] + b[1..];
    assert multiset(a) == multiset{a[0]} + multiset(a[1..]);
    assert multiset(b) == multiset{b[0]} + multiset(b[1..]);
    forall x ensures multiset(a[1..])[x] == multiset(b[1..])[x] {
      assert multiset(a)[x] == multiset{a[0]}[x] + multiset(a[1..])[x];
      assert multiset(b)[x] == multiset{b[0]}[x] + multiset(b[1..])[x];
    }
  }

  /** A multiset has one sorted arrangement. */
  lemma {:induction false} SortedUnique(a: string, b: string)
    requires Sorted(a) && Sorted(b) && multiset(a) == multiset(b)
    ensures a == b
    decreases |a|
  {
    assert |a| == |multiset(a)| == |b|;
    if |a| > 0 {
      SortedHead(a, b);
      MultisetTail(a, b);
      SortedTail(a);
      SortedTail(b);
      SortedUnique(a[1..], b[1..]);
      assert a == [a[0]] + a[1..] && b == [b[0]] + b[1..];
    }
  }

  /** Tuples that are permutations of each other get the same key. */
  lemma SameKey(k1: string, t1: string, k2: string, t2: string)
    requires SortOf(k1, t1) && SortOf(k2, t2) && multiset(t1) == multiset(t2)
    ensures k1 == k2
  {
    SortedUnique(k1, k2);
  }

  /** `buf.sort()`: sorts the list in place. */
  method Sort(a: array<char>)
    modifies a
    ensures SortOf(a[..], old(a[..]))
  {
    for i := 0 to a.Length
      invariant forall p, q :: 0 <= p < q < i ==> a[p] <= a[q]
      invariant multiset(a[..]) == multiset(old(a[..]))
    {
      Insert(a, i);
    }
  }

  /** One insertion step: `a[i]` moves down into the sorted prefix `a[..i]`. */
  method Insert(a: array<char>, i: nat)
    requires i < a.Length
    requires forall p, q :: 0 <= p < q < i ==> a[p] <= a[q]
    modifies a
    ensures forall p, q :: 0 <= p < q <= i ==> a[p] <= a[q]
    ensures multiset(a[..]) == multiset(old(a[..]))
  {
    var j := i;
    while j > 0 && a[j - 1] > a[j]
      invariant 0 <= j <= i
      invariant forall p, q :: 0 <= p < q <= i && p != j && q != j ==> a[p] <= a[q]
      invariant forall q :: j < q <= i ==> a[j] < a[q]
      invariant multiset(a[..]) == multiset(old(a[..]))
    {
      a[j - 1], a[j] := a[j], a[j - 1];
      j := j - 1;
    }
  }

  /** `{k: buf.count(k) for k in DICT_DICE.keys()}`. */
  function ParameterOf(names: seq<char>, buf: string): (r: map<char, nat>)
    ensures forall c :: c in r <==> c in names
  {
    map c | c in names :: multiset(buf)[c]
  }

  /** The parameter counts every die of the key and gives 0 to the absent ones; over distinct names the counts sum to the key's length. */
  lemma ParameterCounts(names: seq<char>, k: string)
    requires forall i, j :: 0 <= i < j < |names| ==> names[i] != names[j]
    requires Over(k, names)
    ensures forall i :: 0 <= i < |k| ==> ParameterOf(names, k)[k[i]] >= 1
    ensures forall c :: c in names && c !in k ==> ParameterOf(names, k)[c] == 0
    ensures SumOver(ParameterOf(names, k), names) == |k|
  {
    var p := ParameterOf(names, k);
    forall i | 0 <= i < |k| ensures p[k[i]] >= 1 {
      assert k[i] in multiset(k);
    }
    SumOverCounts(p, multiset(k), names);
    forall b | b in k ensures b in names {
      var i :| 0 <= i < |k| && k[i] == b;
    }
    OccurrencesAll(k, names);
  }

  /** A key of the table: 1 to `MAX_ROLLS` die names in sorted order. */
  predicate IsKey(names: seq<char>, k: string)
  {
    1 <= |k| <= MAX_ROLLS && Sorted(k) && Over(k, names)
  }

  /** The keys made from the tuples of one length are the sorted strings of that length. */
  lemma LevelKeys(names: seq<char>, n: nat, items: seq<string>, k: string)
    requires items == Product(names, n)
    ensures (exists j :: 0 <= j < |items| && SortOf(k, items[j])) <==> (|k| == n && Sorted(k) && Over(k, names))
  {
    if exists j :: 0 <= j < |items| && SortOf(k, items[j]) {
      var j :| 0 <= j < |items| && SortOf(k, items[j]);
      ProductMembers(names, n, items[j]);
      assert |k| == |multiset(k)| == |items[j]|;
      forall i | 0 <= i < |k| ensures k[i] in names {
        assert k[i] in multiset(items[j]);
        var p :| 0 <= p < |items[j]| && items[j][p] == k[i];
      }
    }
    if |k| == n && Sorted(k) && Over(k, names) {
      ProductMembers(names, n, k);
      var j :| 0 <= j < |items| && items[j] == k;
      assert SortOf(k, items[j]);
    }
  }

  /** No key listed twice, and every key listed. */
  predicate Ordered(order: seq<string>, keys: set<string>)
  {
    && (forall i, j :: 0 <= i < j < |order| ==> order[i] != order[j])
    && (forall k :: k in keys ==> k in order)
    && (forall i :: 0 <= i < |order| ==> order[i] in keys)
  }

  /** One pass of the inner loop: the key of tuple `t` is stored with its parameter. */
  method AddTuple(names: seq<char>, t: string, dists: map<string, Entry>, order: seq<string>)
    returns (key: string, dists': map<string, Entry>, order': seq<string>)
    requires Ordered(order, dists.Keys)
    ensures SortOf(key, t)
    ensures dists' == dists[key := Entry(ParameterOf(names, key), None)]
    ensures order' == if key in dists then order else order + [key]
    ensures Ordered(order', dists'.Keys)
  {
    var buf := new char[|t|](i requires 0 <= i < |t| => t[i]);
    assert buf[..] == t;
    Sort(buf);
    key := buf[..];
    order' := if key in dists then order else order + [key];
    dists' := dists[key := Entry(ParameterOf(names, key), None)];
  }

  /**
   * The inner loop for one length: the key of every tuple is stored; the
   * keys already present keep their place in `order`.
   */
  method AddLevel(names: seq<char>, items: seq<string>, dists: map<string, Entry>, order: seq<string>)
    returns (dists': map<string, Entry>, order': seq<string>)
    requires Ordered(order, dists.Keys)
    requires forall k :: k in dists ==> dists[k] == Entry(ParameterOf(names, k), None)
    ensures forall k :: k in dists' <==> k in dists || exists j :: 0 <= j < |items| && SortOf(k, items[j])
    ensures forall k :: k in dists' ==> dists'[k] == Entry(ParameterOf(names, k), None)
    ensures Ordered(order', dists'.Keys)
    ensures |order| <= |order'| && order'[..|order|] == order
  {
    dists', order' := dists, order;
    for j := 0 to |items|
      invariant LevelInv(names, items, j, dists, order, dists', order')
    {
      var key, d, o := AddTuple(names, items[j], dists', order');
      LevelInvStep(names, items, j, dists, order, dists', order', key, d, o);
      dists', order' := d, o;
    }
  }

  /** The invariant of `AddLevel` after the first `j` tuples. */
  ghost predicate LevelInv(names: seq<char>, items: seq<string>, j: nat, dists: map<string, Entry>, order: seq<string>,
                           d: map<string, Entry>, o: seq<string>)
  {
    && j <= |items|
    && (forall k :: k in d <==> k in dists || exists j' :: 0 <= j' < j && SortOf(k, items[j']))
    && (forall k :: k in d ==> d[k] == Entry(ParameterOf(names, k), None))
    && Ordered(o, d.Keys)
    && |order| <= |o| && o[..|order|] == order
  }

  /** One pass of the inner loop keeps its invariant. */
  lemma LevelInvStep(names: seq<char>, items: seq<string>, j: nat, dists: map<string, Entry>, order: seq<string>,
                     d: map<string, Entry>, o: seq<string>, key: string, d': map<string, Entry>, o': seq<string>)
    requires j < |items| && LevelInv(names, items, j, dists, order, d, o)
    requires SortOf(key, items[j])
    requires d' == d[key := Entry(ParameterOf(names, key), None)]
    requires o' == if key in d then o else o + [key]
    requires Ordered(o', d'.Keys)
    ensures LevelInv(names, items, j + 1, dists, order, d', o')
  {
    assert d'.Keys == d.Keys + {key};
    LevelStep(items, j, dists.Keys, d.Keys, key);
    forall k | k in d' ensures d'[k] == Entry(ParameterOf(names, k), None) {
      if k != key {
        assert k in d && d'[k] == d[k];
      }
    }
    assert o'[..|order|] == order by {
      if key !in d {
        assert (o + [key])[..|order|] == o[..|order|];
      }
    }
  }

  /** Storing the key of tuple `j` adds exactly the keys that tuple sorts to. */
  lemma LevelStep(items: seq<string>, j: nat, base: set<string>, keys: set<string>, key: string)
    requires j < |items| && SortOf(key, items[j])
    requires forall k :: k in keys <==> k in base || exists j' :: 0 <= j' < j && SortOf(k, items[j'])
    ensures forall k :: k in keys + {key} <==> k in base || exists j' :: 0 <= j' < j + 1 && SortOf(k, items[j'])
  {
    forall k | SortOf(k, items[j]) ensures k == key {
      SortedUnique(k, key);
    }
  }

  /**
   * The enumeration loop. The keys are exactly the sorted strings of 1 to
   * `MAX_ROLLS` die names, each entry holds the parameter of its own key,
   * and `order` lists every key exactly once, standing for the dictionary's
   * iteration order.
   */
  method Enumerate(names: seq<char>) returns (dists: map<string, Entry>, order: seq<string>)
    ensures forall k :: k in dists <==> IsKey(names, k)
    ensures forall k :: k in dists ==> dists[k] == Entry(ParameterOf(names, k), None)
    ensures Ordered(order, dists.Keys)
  {
    dists, order := map[], [];
    for n := 1 to MAX_ROLLS + 1
      invariant forall k :: k in dists <==> 1 <= |k| < n && Sorted(k) && Over(k, names)
      invariant forall k :: k in dists ==> dists[k] == Entry(ParameterOf(names, k), None)
      invariant Ordered(order, dists.Keys)
    {
      var items := Product(names, n);
      dists, order := AddLevel(names, items, dists, order);
      forall k ensures k in dists <==> 1 <= |k| < n + 1 && Sorted(k) && Over(k, names) {
        LevelKeys(names, n, items, k);
      }
    }
  }

  /** The picks for every stored key are valid for its dice; each key draws `NO_OF_SAMPLES` samples. */
  predicate Sampled(dists: map<string, Entry>, dice: Dice, picks: map<string, seq<seq<nat>>>)
  {
    forall k :: k in dists ==>
      ParameterKnown(k, dice) && k in picks && PicksValid(k, dice, picks[k]) && |picks[k]| == NO_OF_SAMPLES
  }

  /** Entry `k` as the fill loop leaves it: its distribution is that of its own key. */
  function Completed(dists: map<string, Entry>, k: string, dice: Dice, picks: map<string, seq<seq<nat>>>): Entry
    requires k in dists && Sampled(dists, dice, picks)
  {
    dists[k].(distribution := Some(DistributionOf(k, dice, picks[k])))
  }

  /** Dictionary iteration visits each key once. */
  lemma FirstVisit(order: seq<string>, keys: set<string>, i: nat)
    requires Ordered(order, keys) && i < |order|
    ensures order[i] !in order[..i]
    ensures order[..i + 1] == order[..i] + [order[i]]
  {
    forall p | 0 <= p < i ensures order[..i][p] != order[i] {
      assert order[..i][p] == order[p];
    }
  }

  /**
   * The fill loop: every entry, visited in dictionary order, gets the
   * distribution of its own key; its parameter is kept, and `param_cnt`
   * ends one past the number of entries.
   */
  method Fill(dists: map<string, Entry>, order: seq<string>, dice: Dice, picks: map<string, seq<seq<nat>>>)
    returns (filled: map<string, Entry>, paramCnt: nat)
    requires Ordered(order, dists.Keys)
    requires Sampled(dists, dice, picks)
    ensures filled.Keys == dists.Keys
    ensures forall k :: k in dists ==>
      filled[k] == dists[k].(distribution := Some(DistributionOf(k, dice, picks[k])))
    ensures paramCnt == |order| + 1
  {
    filled, paramCnt := dists, 1;
    for i := 0 to |order|
      invariant filled.Keys == dists.Keys
      invariant forall k :: k in filled ==>
        filled[k] == if k in order[..i] then Completed(dists, k, dice, picks) else dists[k]
      invariant paramCnt == i + 1
    {
      var param := order[i];
      FirstVisit(order, dists.Keys, i);
      var d := GenProbDist(param, dice, picks[param]);
      filled := filled[param := filled[param].(distribution := Some(d))];
      paramCnt := paramCnt + 1;
    }
    assert order[..|order|] == order;
  }

  /**
   * The whole script over the dice read from `dice.json`, whose names in
   * dictionary order are `names`: the table's keys are exactly the sorted
   * strings of 1 to `MAX_ROLLS` die names, and each holds the die counts of
   * its key and the distribution computed from it.
   */
  method GenAllProbDist(dice: Dice, names: seq<char>, picks: map<string, seq<seq<nat>>>)
    returns (table: map<string, Entry>)
    requires forall c :: c in dice <==> c in names
    requires forall k :: IsKey(names, k) ==>
      ParameterKnown(k, dice) && k in picks && PicksValid(k, dice, picks[k]) && |picks[k]| == NO_OF_SAMPLES
    ensures forall k :: k in table <==> IsKey(names, k)
    ensures forall k :: k in table ==>
      table[k] == Entry(ParameterOf(names, k), Some(DistributionOf(k, dice, picks[k])))
    ensures forall k, ks :: k in table && Enumerates(ks, DistributionOf(k, dice, picks[k]).Keys) ==>
      MassOver(DistributionOf(k, dice, picks[k]), ks) == 1.0
  {
    var dists, order := Enumerate(names);
    var paramCnt;
    table, paramCnt := Fill(dists, order, dice, picks);
    forall k | k in table {
      FullSampleMass(k, dice, picks[k]);
    }
  }
}
