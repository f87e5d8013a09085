/**
 * Count maps: the `result` of a survey run, a map from key text to the number of
 * generated sublevels that produced that key.  The survey counter bumps one entry per
 * key; the trial merger adds maps key by key.
 */
module CountMaps {

  type Counts = map<string, int>

  /** `m.get(key, 0)` / `m.getOrDefault(key, 0)`. */
  function Get(m: Counts, key: string): int {
    if key in m then m[key] else 0
  }

  /** `counter.put(key, counter.getOrDefault(key, 0) + 1)`. */
  function Bump(m: Counts, key: string): (r: Counts)
    ensures r.Keys == m.Keys + {key}
    ensures r[key] == Get(m, key) + 1
    ensures forall k :: k in m && k != key ==> r[k] == m[k]
  {
    m[key := Get(m, key) + 1]
  }

  /** The two maps added key by key, a key missing from one side counting 0. */
  function Add(a: Counts, b: Counts): (r: Counts)
    ensures r.Keys == a.Keys + b.Keys
    ensures forall k :: k in r ==> r[k] == Get(a, k) + Get(b, k)
  {
    map k | k in a.Keys + b.Keys :: Get(a, k) + Get(b, k)
  }

  /** The sum of all counts in the map. */
  ghost function Total(m: Counts): int
    decreases |m|
  {
    if m == map[] then 0
    else
      var k :| k in m;
      m[k] + Total(m - {k})
  }

  /** The total can be taken apart at any key, not only the one its definition picks. */
  lemma {:induction false} TotalRemove(m: Counts, k: string)
    requires k in m
    ensures Total(m) == m[k] + Total(m - {k})
    decreases |m|
  {
    var j :| j in m && Total(m) == m[j] + Total(m - {j});
    if j != k {
      TotalRemove(m - {j}, k);
      TotalRemove(m - {k}, j);
      assert m - {j} - {k} == m - {k} - {j};
    }
  }

  /** Adding two maps adds their totals. */
  lemma {:induction false} TotalAdd(a: Counts, b: Counts)
    ensures Total(Add(a, b)) == Total(a) + Total(b)
    decreases |a|
  {
    if a == map[] {
      AddEmpty(b);
    } else {
      var k :| k in a;
      assert (a - {k}).Keys == a.Keys - {k};
      assert |a - {k}| < |a|;
      TotalAdd(a - {k}, b - {k});
      TotalAddStep(a, b, k);
    }
  }

  /** One step of `TotalAdd`: taking key `k` out of both sides keeps the sum law. */
  lemma TotalAddStep(a: Counts, b: Counts, k: string)
    requires k in a
    requires Total(Add(a - {k}, b - {k})) == Total(a - {k}) + Total(b - {k})
    ensures Total(Add(a, b)) == Total(a) + Total(b)
  {
    var sum := Add(a, b);
    TotalRemove(sum, k);
    TotalRemove(a, k);
    AddRemove(a, b, k);
    TotalRemoveGet(b, k);
  }

  /** Taking any key out of a map, present or not, removes its count from the total. */
  lemma TotalRemoveGet(m: Counts, k: string)
    ensures Total(m) == Get(m, k) + Total(m - {k})
  {
    if k in m {
      TotalRemove(m, k);
    } else {
      assert m - {k} == m;
    }
  }

  lemma AddEmpty(b: Counts)
    ensures Add(map[], b) == b
  {
    var r := Add(map[], b);
    assert r.Keys == b.Keys;
    assert forall k :: k in r ==> r[k] == b[k];
  }

  lemma AddRemove(a: Counts, b: Counts, k: string)
    ensures Add(a, b) - {k} == Add(a - {k}, b - {k})
  {
    var l := Add(a, b) - {k};
    var r := Add(a - {k}, b - {k});
    assert l.Keys == r.Keys;
    forall j | j in l ensures l[j] == r[j] {
      assert Get(a, j) == Get(a - {k}, j) && Get(b, j) == Get(b - {k}, j);
    }
  }

  /** One bump adds one to the total. */
  lemma TotalBump(m: Counts, key: string)
    ensures Total(Bump(m, key)) == Total(m) + 1
  {
    var r := Bump(m, key);
    TotalRemove(r, key);
    if key in m {
      TotalRemove(m, key);
      assert r - {key} == m - {key};
    } else {
      assert r - {key} == m;
    }
  }

  /** The counter after bumping every key of `keys` in turn, starting from an empty map. */
  function Tally(keys: seq<string>): Counts {
    if keys == [] then map[]
    else Bump(Tally(keys[..|keys| - 1]), keys[|keys| - 1])
  }

  /** The tally holds exactly the keys bumped, each with the number of times it was bumped. */
  lemma {:induction false} TallyCounts(keys: seq<string>)
    ensures forall k :: k in Tally(keys) <==> k in keys
    ensures forall k :: k in Tally(keys) ==> Tally(keys)[k] == multiset(keys)[k]
    decreases |keys|
  {
    if keys != [] {
      var init := keys[..|keys| - 1];
      TallyCounts(init);
      assert keys == init + [keys[|keys| - 1]];
    }
  }

  /** Tallying one more key is one more bump. */
  lemma TallySnoc(keys: seq<string>, key: string)
    ensures Tally(keys + [key]) == Bump(Tally(keys), key)
  {
    assert (keys + [key])[..|keys|] == keys;
  }

  /** Every bump is counted once: the tally's total is the number of keys. */
  lemma {:induction false} TotalTally(keys: seq<string>)
    ensures Total(Tally(keys)) == |keys|
    decreases |keys|
  {
    if keys == [] {
    } else {
      TotalTally(keys[..|keys| - 1]);
      TotalBump(Tally(keys[..|keys| - 1]), keys[|keys| - 1]);
    }
  }
}
