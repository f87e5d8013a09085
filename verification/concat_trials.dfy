/**
 * The trial merger: several survey runs over adjacent seed ranges are sorted by seed,
 * checked to cover one contiguous range, and combined into a single trial whose count
 * map is the key-by-key sum of theirs.
 */
module ConcatTrials {
  import opened Results
  import opened Text
  import opened CountMaps
  import opened Trials

  predicate SeedSorted(s: seq<Trial>) {
    forall i, j :: 0 <= i < j < |s| ==> s[i].seed <= s[j].seed
  }

  /** Places `t` behind every element whose seed is not greater than its own. */
  function InsertBySeed(s: seq<Trial>, t: Trial): (r: seq<Trial>)
    ensures multiset(r) == multiset(s) + multiset{t}
    ensures SeedSorted(s) ==> SeedSorted(r)
  {
    if s == [] || t.seed < s[0].seed then [t] + s
    else
      var tail := InsertBySeed(s[1..], t);
      assert s == [s[0]] + s[1..];
      BehindHead(s, t, tail);
      [s[0]] + tail
  }

  lemma BehindHead(s: seq<Trial>, t: Trial, tail: seq<Trial>)
    requires s != [] && s[0].seed <= t.seed
    requires multiset(tail) == multiset(s[1..]) + multiset{t}
    requires SeedSorted(s[1..]) ==> SeedSorted(tail)
    ensures SeedSorted(s) ==> SeedSorted([s[0]] + tail)
  {
    if SeedSorted(s) {
      assert SeedSorted(s[1..]);
      forall j | 0 <= j < |tail| ensures s[0].seed <= tail[j].seed {
        assert tail[j] in multiset(tail);
        if tail[j] != t {
          assert tail[j] in multiset(s[1..]);
          var k :| 0 <= k < |s[1..]| && s[1..][k] == tail[j];
          assert s[k + 1] == tail[j];
        }
      }
    }
  }

  /** The trials of `s` whose seed is `seed`, in their order in `s`. */
  function WithSeed(s: seq<Trial>, seed: int): seq<Trial> {
    if s == [] then []
    else (if s[0].seed == seed then [s[0]] else []) + WithSeed(s[1..], seed)
  }

  lemma WithSeedCons(x: Trial, s: seq<Trial>, seed: int)
    ensures WithSeed([x] + s, seed) == (if x.seed == seed then [x] else []) + WithSeed(s, seed)
  {
    assert ([x] + s)[1..] == s;
  }

  lemma {:induction false} WithSeedAppend(a: seq<Trial>, b: seq<Trial>, seed: int)
    ensures WithSeed(a + b, seed) == WithSeed(a, seed) + WithSeed(b, seed)
    decreases |a|
  {
    if a != [] {
      assert a + b == [a[0]] + (a[1..] + b);
      WithSeedCons(a[0], a[1..] + b, seed);
      WithSeedAppend(a[1..], b, seed);
    } else {
      assert a + b == b;
    }
  }

  lemma {:induction false} NoneWithSeed(s: seq<Trial>, seed: int)
    requires forall i :: 0 <= i < |s| ==> s[i].seed != seed
    ensures WithSeed(s, seed) == []
    decreases |s|
  {
    if s != [] {
      NoneWithSeed(s[1..], seed);
    }
  }

  /**
   * Insertion is stable: `t` lands behind every trial of `s` with the same seed, so
   * among the trials of one seed it comes last.
   */
  lemma {:induction false} InsertKeepsTies(s: seq<Trial>, t: Trial, seed: int)
    requires SeedSorted(s)
    ensures WithSeed(InsertBySeed(s, t), seed) == WithSeed(s, seed) + (if t.seed == seed then [t] else [])
    decreases |s|
  {
    if s == [] {
      assert InsertBySeed(s, t) == [t];
    } else if t.seed < s[0].seed {
      InsertInFront(s, t, seed);
    } else {
      assert SeedSorted(s[1..]);
      InsertKeepsTies(s[1..], t, seed);
      InsertUnfold(s, t);
      InsertBehind(s, t, InsertBySeed(s[1..], t), seed);
    }
  }

  /** Inserting behind the head: the head's own contribution comes first. */
  lemma InsertBehind(s: seq<Trial>, t: Trial, tail: seq<Trial>, seed: int)
    requires s != []
    requires WithSeed(tail, seed) == WithSeed(s[1..], seed) + (if t.seed == seed then [t] else [])
    ensures WithSeed([s[0]] + tail, seed) == WithSeed(s, seed) + (if t.seed == seed then [t] else [])
  {
    var head := if s[0].seed == seed then [s[0]] else [];
    var added := if t.seed == seed then [t] else [];
    WithSeedCons(s[0], tail, seed);
    assert WithSeed(s, seed) == head + WithSeed(s[1..], seed);
    assert head + (WithSeed(s[1..], seed) + added) == (head + WithSeed(s[1..], seed)) + added;
  }

  /** Behind a head whose seed is not greater, insertion goes into the tail. */
  lemma InsertUnfold(s: seq<Trial>, t: Trial)
    requires s != [] && s[0].seed <= t.seed
    ensures InsertBySeed(s, t) == [s[0]] + InsertBySeed(s[1..], t)
  {
  }

  /** Inserted in front of a sorted sequence of larger seeds, `t` is the only one of its seed. */
  lemma InsertInFront(s: seq<Trial>, t: Trial, seed: int)
    requires SeedSorted(s) && s != [] && t.seed < s[0].seed
    ensures WithSeed(InsertBySeed(s, t), seed) == WithSeed(s, seed) + (if t.seed == seed then [t] else [])
  {
    assert InsertBySeed(s, t) == [t] + s;
    WithSeedCons(t, s, seed);
    if t.seed == seed {
      NoneWithSeed(s, seed);
    }
  }

  /** Python's stable `sorted(trials, key = lambda t: t['seed'])`, as an insertion sort. */
  function SortBySeed(trials: seq<Trial>): (r: seq<Trial>)
    ensures multiset(r) == multiset(trials)
    ensures SeedSorted(r)
  {
    if trials == [] then []
    else
      var last := trials[|trials| - 1];
      assert trials == trials[..|trials| - 1] + [last];
      InsertBySeed(SortBySeed(trials[..|trials| - 1]), last)
  }

  /**
   * The sort is stable: the trials sharing a seed keep their input order.  With the
   * permutation and the seed order, this determines the sorted sequence.
   */
  lemma {:induction false} SortBySeedStable(trials: seq<Trial>, seed: int)
    ensures WithSeed(SortBySeed(trials), seed) == WithSeed(trials, seed)
    decreases |trials|
  {
    if trials != [] {
      var init, last := trials[..|trials| - 1], trials[|trials| - 1];
      assert trials == init + [last];
      SortBySeedStable(init, seed);
      InsertKeepsTies(SortBySeed(init), last, seed);
      WithSeedAppend(init, [last], seed);
      WithSeedCons(last, [], seed);
      assert [last] + [] == [last];
    }
  }

  /** Each trial's range ends exactly where the next one's begins. */
  predicate Contiguous(s: seq<Trial>) {
    forall i :: 0 <= i < |s| - 1 ==> s[i].seed + s[i].num == s[i + 1].seed
  }

  /** Some trial's count map holds `key`. */
  predicate HeldBySome(s: seq<Trial>, key: string) {
    exists i :: 0 <= i < |s| && key in s[i].result
  }

  function NumTotal(s: seq<Trial>): int {
    SumOf(s, (t: Trial) => t.num)
  }

  function KeyTotal(s: seq<Trial>, key: string): int {
    SumOf(s, (t: Trial) => Get(t.result, key))
  }

  ghost function GrandTotal(s: seq<Trial>): int {
    SumOf(s, (t: Trial) => Total(t.result))
  }

  /** The count maps of `s`, added together in order. */
  function MergeAll(s: seq<Trial>): (r: Counts)
    ensures forall k :: k in r <==> HeldBySome(s, k)
    ensures forall k :: k in r ==> r[k] == KeyTotal(s, k)
  {
    if s == [] then map[]
    else
      var init := s[..|s| - 1];
      var last := s[|s| - 1];
      var r := Add(MergeAll(init), last.result);
      assert s == init + [last];
      forall k | k in r ensures r[k] == KeyTotal(s, k) {
        SumOfAppend(init, [last], (t: Trial) => Get(t.result, k));
        if k !in MergeAll(init) {
          AbsentKeyTotal(init, k);
        }
      }
      r
  }

  /** A key no trial holds sums to zero. */
  lemma {:induction false} AbsentKeyTotal(s: seq<Trial>, key: string)
    requires forall i :: 0 <= i < |s| ==> key !in s[i].result
    ensures KeyTotal(s, key) == 0
    decreases |s|
  {
    if s != [] {
      AbsentKeyTotal(s[1..], key);
    }
  }

  /** Over a contiguous run, the span from the first seed to the end of the last range is the sum of the lengths. */
  lemma {:induction false} ContiguousSpan(s: seq<Trial>)
    requires |s| > 0 && Contiguous(s)
    ensures s[|s| - 1].seed + s[|s| - 1].num - s[0].seed == NumTotal(s)
    decreases |s|
  {
    if |s| == 1 {
      assert s[1..] == [];
      assert NumTotal(s) == s[0].num + NumTotal(s[1..]);
    } else {
      var u := s[1..];
      assert Contiguous(u) by {
        forall i | 0 <= i < |u| - 1 ensures u[i].seed + u[i].num == u[i + 1].seed {
          assert u[i] == s[i + 1] && u[i + 1] == s[i + 2];
        }
      }
      ContiguousSpan(u);
      assert u[|u| - 1] == s[|s| - 1] && u[0] == s[1];
      assert s[0].seed + s[0].num == s[1].seed;
      assert NumTotal(s) == s[0].num + NumTotal(u);
    }
  }

  /**
   * The merge of `tools/concat_trials.py`: sort by seed, assert contiguity, then read
   * the first trial (an IndexError when there is none) and combine.
   */
  function Concat(trials: seq<Trial>): (r: Result<Trial>)
    ensures r.Ok? <==> |trials| > 0 && Contiguous(SortBySeed(trials))
    ensures trials == [] ==> r == Err(IndexError)
    ensures !Contiguous(SortBySeed(trials)) ==> r == Err(AssertionError)
    ensures r.Ok? ==> exists i :: 0 <= i < |trials| && trials[i].seed == r.value.seed
    ensures r.Ok? ==> forall i :: 0 <= i < |trials| ==> r.value.seed <= trials[i].seed
    ensures r.Ok? ==> r.value.num == NumTotal(trials)
    ensures r.Ok? ==> forall k :: k in r.value.result <==> HeldBySome(trials, k)
    ensures r.Ok? ==> forall k :: k in r.value.result ==> r.value.result[k] == KeyTotal(trials, k)
  {
    var sorted := SortBySeed(trials);
    if !Contiguous(sorted) then Err(AssertionError)
    else if |sorted| == 0 then Err(IndexError)
    else
      var first := sorted[0];
      var last := sorted[|sorted| - 1];
      SortedSpan(trials);
      SortedFirst(trials);
      var merged := MergeAll(sorted);
      SortedMerge(trials);
      Ok(Trial(first.seed, last.seed + last.num - first.seed, merged))
  }

  /**
   * Ties are kept in input order, and that order decides the contiguity check: an empty
   * trial listed after a non-empty one at the same seed breaks the chain, listed before
   * it does not.
   */
  lemma {:induction false} TieOrderDecides()
    ensures var a, b := Trial(0, 5, map[]), Trial(0, 0, map[]);
      && Concat([a, b]) == Err(AssertionError)
      && Concat([b, a]).Ok?
  {
    var a, b := Trial(0, 5, map[]), Trial(0, 0, map[]);
    PairSorts(a, b);
    PairSorts(b, a);
    assert !Contiguous([a, b]) by {
      assert [a, b][0].seed + [a, b][0].num != [a, b][1].seed;
    }
    assert Contiguous([b, a]);
  }

  /** Two trials at the same seed sort in input order. */
  lemma PairSorts(a: Trial, b: Trial)
    requires a.seed == b.seed
    ensures SortBySeed([a, b]) == [a, b]
  {
    assert [a, b][..1] == [a];
    assert SortBySeed([a]) == [a];
    assert InsertBySeed([a], b) == [a, b];
  }

  /** The span of the sorted trials is the sum of all lengths, taken in the given order. */
  lemma SortedSpan(trials: seq<Trial>)
    requires |trials| > 0 && Contiguous(SortBySeed(trials))
    ensures var s := SortBySeed(trials);
      s[|s| - 1].seed + s[|s| - 1].num - s[0].seed == NumTotal(trials)
  {
    var s := SortBySeed(trials);
    assert NumTotal(s) == NumTotal(trials) by {
      SumOfPermutation(s, trials, (t: Trial) => t.num);
    }
    ContiguousSpan(s);
  }

  /** The first sorted trial carries the least seed of all. */
  lemma SortedFirst(trials: seq<Trial>)
    requires |trials| > 0
    ensures var s := SortBySeed(trials);
      && (exists i :: 0 <= i < |trials| && trials[i].seed == s[0].seed)
      && (forall i :: 0 <= i < |trials| ==> s[0].seed <= trials[i].seed)
  {
    var s := SortBySeed(trials);
    assert s[0] in multiset(trials);
    forall i | 0 <= i < |trials| ensures s[0].seed <= trials[i].seed {
      assert trials[i] in multiset(s);
      var j :| 0 <= j < |s| && s[j] == trials[i];
      assert j == 0 || s[0].seed <= s[j].seed;
    }
  }

  /** Merging the sorted trials gives the same map as merging them as given. */
  lemma SortedMerge(trials: seq<Trial>)
    ensures var m := MergeAll(SortBySeed(trials));
      && (forall k :: k in m <==> HeldBySome(trials, k))
      && (forall k :: k in m ==> m[k] == KeyTotal(trials, k))
  {
    var s := SortBySeed(trials);
    SortedHeld(trials, s);
    forall k | k in MergeAll(s) ensures MergeAll(s)[k] == KeyTotal(trials, k) {
      SumOfPermutation(s, trials, (t: Trial) => Get(t.result, k));
    }
  }

  /** A permutation of the trials holds the same keys. */
  lemma SortedHeld(trials: seq<Trial>, s: seq<Trial>)
    requires multiset(s) == multiset(trials)
    ensures forall k :: HeldBySome(s, k) <==> HeldBySome(trials, k)
  {
    SameElements(s, trials);
  }

  lemma SameElements(s: seq<Trial>, t: seq<Trial>)
    requires multiset(s) == multiset(t)
    ensures forall i :: 0 <= i < |s| ==> exists j :: 0 <= j < |t| && t[j] == s[i]
    ensures forall j :: 0 <= j < |t| ==> exists i :: 0 <= i < |s| && s[i] == t[j]
  {
    forall i | 0 <= i < |s| ensures exists j :: 0 <= j < |t| && t[j] == s[i] {
      assert s[i] in multiset(t);
    }
    forall j | 0 <= j < |t| ensures exists i :: 0 <= i < |s| && s[i] == t[j] {
      assert t[j] in multiset(s);
    }
  }

  /** The merged counts total the counts of all trials together. */
  lemma MergedGrandTotal(trials: seq<Trial>)
    requires Concat(trials).Ok?
    ensures Total(Concat(trials).value.result) == GrandTotal(trials)
  {
    var sorted := SortBySeed(trials);
    MergeAllTotal(sorted);
    SumOfPermutation(sorted, trials, (t: Trial) => Total(t.result));
  }

  lemma {:induction false} MergeAllTotal(s: seq<Trial>)
    ensures Total(MergeAll(s)) == GrandTotal(s)
    decreases |s|
  {
    if s != [] {
      var init := s[..|s| - 1];
      var last := s[|s| - 1];
      MergeAllTotal(init);
      TotalAdd(MergeAll(init), last.result);
      assert s == init + [last];
      assert MergeAll(s) == Add(MergeAll(init), last.result);
      SumOfAppend(init, [last], (t: Trial) => Total(t.result));
      assert GrandTotal(s) == GrandTotal(init) + GrandTotal([last]);
    }
  }

  /** The merged map's keys in ascending string order (`sorted(result.items())`). */
  method SortedKeys(m: Counts) returns (keys: seq<string>)
    ensures StrictlySorted(keys)
    ensures forall k :: k in keys <==> k in m
  {
    keys := [];
    var rest := m.Keys;
    while rest != {}
      invariant rest <= m.Keys
      invariant StrictlySorted(keys)
      invariant forall k :: k in keys <==> k in m && k !in rest
      decreases rest
    {
      var k :| k in rest;
      keys := Insert(keys, k);
      assert forall j :: j in keys <==> j in multiset(keys);
      rest := rest - {k};
    }
  }

  /** The printed line: merged seed and length in `%08X`, then the counts in key order. */
  method ConcatOutput(trials: seq<Trial>) returns (r: Result<string>, keys: seq<string>)
    ensures r.Ok? <==> Concat(trials).Ok?
    ensures r.Err? ==> r.error == Concat(trials).error
    ensures r.Ok? ==>
      var merged := Concat(trials).value;
      && StrictlySorted(keys)
      && (forall k :: k in keys <==> k in merged.result)
      && r.value == LineText(PyHex08(merged.seed), PyHex08(merged.num), merged.result, keys)
  {
    var c := Concat(trials);
    if c.Err? {
      return Err(c.error), [];
    }
    var merged := c.value;
    keys := SortedKeys(merged.result);
    r := Ok(LineText(PyHex08(merged.seed), PyHex08(merged.num), merged.result, keys));
  }
}
