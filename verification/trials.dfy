/**
 * A trial: one survey run over the seeds `seed, ..., seed + num - 1` and the count map
 * it produced, together with the one-line text in which the survey counter prints a
 * trial and the trial merger prints the merged one:
 * `{"seed": 0x%08X, "num": 0x%08X, "result": {"key": count, ...}}`.
 */
module Trials {
  import opened Text
  import opened CountMaps

  datatype Trial = Trial(seed: int, num: int, result: Counts)

  /** The sum of `f` over the elements of `s`. */
  function SumOf<T>(s: seq<T>, f: T -> int): int {
    if s == [] then 0 else f(s[0]) + SumOf(s[1..], f)
  }

  lemma {:induction false} SumOfAppend<T>(s: seq<T>, t: seq<T>, f: T -> int)
    ensures SumOf(s + t, f) == SumOf(s, f) + SumOf(t, f)
    decreases |s|
  {
    if s != [] {
      assert (s + t)[1..] == s[1..] + t;
      SumOfAppend(s[1..], t, f);
    } else {
      assert s + t == t;
    }
  }

  /** Any one term can be taken out of a sum. */
  lemma {:induction false} SumOfRemove<T>(t: seq<T>, i: nat, f: T -> int)
    requires i < |t|
    ensures SumOf(t, f) == f(t[i]) + SumOf(t[..i] + t[i + 1..], f)
    decreases i
  {
    if i == 0 {
      assert t[..0] + t[1..] == t[1..];
    } else {
      var u := t[1..];
      SumOfRemove(u, i - 1, f);
      assert u[i - 1] == t[i];
      var rest := u[..i - 1] + u[i..];
      assert t[..i] + t[i + 1..] == [t[0]] + rest;
      assert ([t[0]] + rest)[1..] == rest;
    }
  }

  /** A sum does not depend on the order of its terms. */
  lemma {:induction false} SumOfPermutation<T>(s: seq<T>, t: seq<T>, f: T -> int)
    requires multiset(s) == multiset(t)
    ensures SumOf(s, f) == SumOf(t, f)
    decreases |s|
  {
    if s != [] {
      var x := s[0];
      assert x in multiset(t);
      var i :| 0 <= i < |t| && t[i] == x;
      var rest := t[..i] + t[i + 1..];
      assert t == t[..i] + [x] + t[i + 1..];
      assert multiset(rest) == multiset(t) - multiset{x};
      assert s == [x] + s[1..];
      SumOfPermutation(s[1..], rest, f);
      SumOfRemove(t, i, f);
    }
  }

  // ---------------------------------------------------------------- the trial line

  /** One JSON object member, `"key": count`. */
  function EntryText(key: string, count: int): string {
    "\"" + key + "\": " + IntText(count)
  }

  /** The members of `result` for `keys`, in that order. */
  function EntryTexts(result: Counts, keys: seq<string>): (texts: seq<string>)
    requires forall i :: 0 <= i < |keys| ==> keys[i] in result
    ensures |texts| == |keys|
    ensures forall i :: 0 <= i < |keys| ==> texts[i] == EntryText(keys[i], result[keys[i]])
  {
    seq(|keys|, i requires 0 <= i < |keys| => EntryText(keys[i], result[keys[i]]))
  }

  /** The whole line, given the two hex fields already rendered. */
  function LineText(seedHex: string, numHex: string, result: Counts, keys: seq<string>): string
    requires forall i :: 0 <= i < |keys| ==> keys[i] in result
  {
    "{\"seed\": 0x" + seedHex + ", \"num\": 0x" + numHex + ", \"result\": {"
      + Join(EntryTexts(result, keys), ", ") + "}}"
  }
}
