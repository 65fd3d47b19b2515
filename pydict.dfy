/**
 * Python dictionaries with string keys, as far as the core uses them: keys
 * keep the order of their first insertion, assigning to a present key replaces
 * its value in place, and a literal `{k1: v1, k2: v2, **other}` is that
 * sequence of assignments from left to right.
 */
module PyDict {
  /** A dict: its keys in insertion order and the value under each key. */
  datatype Dict<V> = Dict(keys: seq<string>, values: map<string, V>)

  predicate Distinct<T(==)>(s: seq<T>) {
    forall i, j :: 0 <= i < j < |s| ==> s[i] != s[j]
  }

  /** Every key is listed once, and the listed keys are exactly the mapped ones. */
  predicate Valid<V>(d: Dict<V>) {
    Distinct(d.keys) && (set k | k in d.keys) == d.values.Keys
  }

  function Empty<V>(): (d: Dict<V>)
    ensures Valid(d) && d.keys == [] && d.values == map[]
  {
    Dict([], map[])
  }

  /** `d[k] = v`. */
  function Assign<V>(d: Dict<V>, k: string, v: V): (e: Dict<V>)
    requires Valid(d)
    ensures Valid(e)
    ensures e.values == d.values[k := v]
    ensures k in d.values ==> e.keys == d.keys
    ensures k !in d.values ==> e.keys == d.keys + [k]
  {
    if k in d.values then Dict(d.keys, d.values[k := v])
    else
      assert forall i :: 0 <= i < |d.keys| ==> d.keys[i] != k by {
        forall i | 0 <= i < |d.keys| ensures d.keys[i] != k {
          assert d.keys[i] in (set x | x in d.keys);
        }
      }
      Dict(d.keys + [k], d.values[k := v])
  }

  /** The keys of a sequence of pairs. */
  function Firsts<V>(pairs: seq<(string, V)>): (ks: seq<string>)
    ensures |ks| == |pairs|
    ensures forall i :: 0 <= i < |pairs| ==> ks[i] == pairs[i].0
  {
    if pairs == [] then [] else Firsts(pairs[..|pairs| - 1]) + [pairs[|pairs| - 1].0]
  }

  /** The elements of `s` in the order of their first occurrence, each once. */
  function FirstOccurrences<T(==,!new)>(s: seq<T>): (r: seq<T>)
    ensures Distinct(r)
    ensures forall x :: x in r <==> x in s
  {
    if s == [] then []
    else
      var r := FirstOccurrences(s[..|s| - 1]);
      assert forall x :: x in s <==> x in s[..|s| - 1] || x == s[|s| - 1] by {
        assert s == s[..|s| - 1] + [s[|s| - 1]];
      }
      if s[|s| - 1] in r then r else r + [s[|s| - 1]]
  }

  /** A dict literal or display: the pairs assigned from left to right. */
  function FromPairs<V>(pairs: seq<(string, V)>): (d: Dict<V>)
    ensures Valid(d)
  {
    if pairs == [] then Empty()
    else Assign(FromPairs(pairs[..|pairs| - 1]), pairs[|pairs| - 1].0, pairs[|pairs| - 1].1)
  }

  /** The items of a dict, in key order. */
  function Items<V>(d: Dict<V>): (items: seq<(string, V)>)
    requires Valid(d)
    ensures |items| == |d.keys|
    ensures forall i :: 0 <= i < |items| ==> items[i] == (d.keys[i], d.values[d.keys[i]])
  {
    seq(|d.keys|, i requires 0 <= i < |d.keys| => (d.keys[i], d.values[d.keys[i]]))
  }

  /** A literal's keys are its distinct keys in order of first appearance. */
  lemma {:induction false} FromPairsKeys<V>(pairs: seq<(string, V)>)
    ensures FromPairs(pairs).keys == FirstOccurrences(Firsts(pairs))
  {
    if pairs != [] {
      var init := pairs[..|pairs| - 1];
      FromPairsKeys(init);
      assert Firsts(pairs)[..|pairs| - 1] == Firsts(init);
      var d := FromPairs(init);
      var k := pairs[|pairs| - 1].0;
      assert k in d.values <==> k in d.keys;
    }
  }

  /** A key maps to the value of its last pair. */
  lemma {:induction false} FromPairsLastWins<V>(pairs: seq<(string, V)>, i: nat)
    requires i < |pairs|
    requires forall j :: i < j < |pairs| ==> pairs[j].0 != pairs[i].0
    ensures pairs[i].0 in FromPairs(pairs).values
    ensures FromPairs(pairs).values[pairs[i].0] == pairs[i].1
  {
    if i < |pairs| - 1 {
      FromPairsLastWins(pairs[..|pairs| - 1], i);
    }
  }

  /** The keys of a literal are exactly the keys written in it. */
  lemma {:induction false} FromPairsDomain<V>(pairs: seq<(string, V)>)
    ensures forall k :: k in FromPairs(pairs).values <==> k in Firsts(pairs)
  {
    FromPairsKeys(pairs);
    assert forall k :: k in FromPairs(pairs).values <==> k in FromPairs(pairs).keys;
  }

  /** A literal whose keys are all different keeps them in order, each with its own value. */
  lemma {:induction false} FromDistinctPairs<V>(pairs: seq<(string, V)>)
    requires Distinct(Firsts(pairs))
    ensures FromPairs(pairs).keys == Firsts(pairs)
    ensures forall i :: 0 <= i < |pairs| ==> FromPairs(pairs).values[pairs[i].0] == pairs[i].1
  {
    if pairs != [] {
      var init := pairs[..|pairs| - 1];
      assert Firsts(init) == Firsts(pairs)[..|pairs| - 1];
      FromDistinctPairs(init);
      var k := pairs[|pairs| - 1].0;
      assert k !in Firsts(init);
      assert k !in FromPairs(init).values by {
        assert FromPairs(init).values.Keys == set x | x in Firsts(init);
      }
    }
  }

  /** Assigning a key the value it already has changes nothing. */
  lemma AssignSame<V>(d: Dict<V>, k: string)
    requires Valid(d) && k in d.values
    ensures Assign(d, k, d.values[k]) == d
  {
  }

  /** A literal with one more pair is one more assignment. */
  lemma FromPairsSnoc<V>(pairs: seq<(string, V)>, x: (string, V))
    ensures FromPairs(pairs + [x]) == Assign(FromPairs(pairs), x.0, x.1)
  {
    assert (pairs + [x])[..|pairs|] == pairs;
  }

  /** Writing a pair once more further on in a literal, when no pair in between
      rebinds its key, changes nothing: the key keeps its place and its value. */
  lemma {:induction false} RepeatedPair<V>(pre: seq<(string, V)>, i: nat, post: seq<(string, V)>)
    requires i < |pre|
    requires forall j :: i < j < |pre| ==> pre[j].0 != pre[i].0
    ensures FromPairs(pre + [pre[i]] + post) == FromPairs(pre + post)
    decreases |post|
  {
    if post == [] {
      assert pre + [pre[i]] + post == pre + [pre[i]];
      assert pre + post == pre;
      FromPairsSnoc(pre, pre[i]);
      FromPairsLastWins(pre, i);
      AssignSame(FromPairs(pre), pre[i].0);
    } else {
      var init := post[..|post| - 1];
      var x := post[|post| - 1];
      RepeatedPair(pre, i, init);
      assert pre + [pre[i]] + post == (pre + [pre[i]] + init) + [x];
      assert pre + post == (pre + init) + [x];
      FromPairsSnoc(pre + [pre[i]] + init, x);
      FromPairsSnoc(pre + init, x);
    }
  }
}
