/** Python's `dict` from item names to quantities, as the inventory uses it:
    a map together with the sequence of its keys in insertion order (the order
    in which `items()` and `json.dump` visit them). */
module DictOrder {

  /** No element occurs twice. */
  predicate NoDup(s: seq<string>)
  {
    forall i, j :: 0 <= i < j < |s| ==> s[i] != s[j]
  }

  /** `a` is obtained from `s` by dropping elements, keeping the rest in order. */
  predicate IsSubseq(a: seq<string>, s: seq<string>)
    decreases |s|
  {
    a == [] || (s != [] && ((a[0] == s[0] && IsSubseq(a[1..], s[1..])) || IsSubseq(a, s[1..])))
  }

  lemma {:induction false} SubseqMembers(a: seq<string>, s: seq<string>)
    requires IsSubseq(a, s)
    ensures forall x :: x in a ==> x in s
    decreases |s|
  {
    if a != [] {
      if a[0] == s[0] && IsSubseq(a[1..], s[1..]) {
        SubseqMembers(a[1..], s[1..]);
        forall x | x in a ensures x in s {
          if x != a[0] { assert x in a[1..]; }
        }
      } else {
        SubseqMembers(a, s[1..]);
      }
    }
  }

  /** A subsequence of a duplicate-free sequence has no duplicates either. */
  lemma {:induction false} SubseqNoDup(a: seq<string>, s: seq<string>)
    requires NoDup(s) && IsSubseq(a, s)
    ensures NoDup(a)
    decreases |s|
  {
    if a != [] {
      assert NoDup(s[1..]);
      if a[0] == s[0] && IsSubseq(a[1..], s[1..]) {
        SubseqNoDup(a[1..], s[1..]);
        SubseqMembers(a[1..], s[1..]);
        forall i, j | 0 <= i < j < |a| ensures a[i] != a[j] {
          if i == 0 {
            assert a[j] in a[1..];
            assert a[j] in s[1..];
          } else {
            assert a[i] == a[1..][i - 1] && a[j] == a[1..][j - 1];
          }
        }
      } else {
        SubseqNoDup(a, s[1..]);
      }
    }
  }

  /** Over a duplicate-free sequence, a subsequence is determined by its set of
      elements: two subsequences with the same members are equal. */
  lemma {:induction false} SubseqUnique(a: seq<string>, b: seq<string>, s: seq<string>)
    requires NoDup(s) && IsSubseq(a, s) && IsSubseq(b, s)
    requires forall x :: x in a <==> x in b
    ensures a == b
    decreases |s|
  {
    if s != [] {
      var h := s[0];
      var a', b' := Rest(a, s), Rest(b, s);
      assert NoDup(s[1..]);
      SubseqMembers(a', s[1..]);
      SubseqMembers(b', s[1..]);
      forall x ensures x in a' <==> x in b' {
        if x != h {
          assert x in a' <==> x in a;
          assert x in b' <==> x in b;
        }
      }
      SubseqUnique(a', b', s[1..]);
    }
  }

  /** `a` without `s`'s head, a subsequence of `s[1..]`. */
  ghost function Rest(a: seq<string>, s: seq<string>): (r: seq<string>)
    requires s != [] && NoDup(s) && IsSubseq(a, s)
    ensures IsSubseq(r, s[1..])
    ensures s[0] in a ==> a == [s[0]] + r
    ensures s[0] !in a ==> r == a
  {
    if a != [] && a[0] == s[0] && IsSubseq(a[1..], s[1..]) then
      a[1..]
    else
      SubseqMembers(a, s[1..]);
      assert s[0] !in s[1..];
      a
  }

  /** `s` with every occurrence of `x` removed, the rest kept in order. */
  function Without(s: seq<string>, x: string): (r: seq<string>)
    ensures forall y :: y in r <==> y in s && y != x
    ensures IsSubseq(r, s)
    ensures NoDup(s) ==> NoDup(r)
  {
    if s == [] then []
    else
      var tail := Without(s[1..], x);
      if s[0] == x then tail
      else
        assert NoDup(s) ==> s[0] !in s[1..];
        [s[0]] + tail
  }

  /** The state of a `dict`: its entries and its keys in insertion order. */
  datatype Dict = Dict(values: map<string, int>, keys: seq<string>)

  const Empty := Dict(map[], [])

  /** The key sequence lists every key exactly once. */
  ghost predicate WellFormed(d: Dict)
  {
    NoDup(d.keys) && forall k :: k in d.values <==> k in d.keys
  }

  /** `d.get(k, 0)`. */
  function Get(d: Dict, k: string): (v: int)
    ensures k in d.values ==> v == d.values[k]
    ensures k !in d.values ==> v == 0
  {
    if k in d.values then d.values[k] else 0
  }

  /** `d[k] = v`: an existing key keeps its place, a new key goes last. */
  function Put(d: Dict, k: string, v: int): (r: Dict)
    ensures k in r.values && r.values[k] == v
    ensures forall j :: j != k ==> (j in r.values <==> j in d.values)
    ensures forall j :: j != k && j in d.values ==> r.values[j] == d.values[j]
    ensures k in d.values ==> r.keys == d.keys
    ensures k !in d.values ==> r.keys == d.keys + [k]
    ensures WellFormed(d) ==> WellFormed(r)
  {
    if k in d.values then Dict(d.values[k := v], d.keys)
    else Dict(d.values[k := v], d.keys + [k])
  }

  /** `del d[k]`: the key leaves both the entries and the order. */
  function Delete(d: Dict, k: string): (r: Dict)
    ensures k !in r.values
    ensures forall j :: j != k ==> (j in r.values <==> j in d.values)
    ensures forall j :: j != k && j in d.values ==> r.values[j] == d.values[j]
    ensures IsSubseq(r.keys, d.keys)
    ensures WellFormed(d) ==> WellFormed(r)
  {
    Dict(d.values - {k}, Without(d.keys, k))
  }

  /** Assigning to a present key and then deleting it is the same as deleting it. */
  lemma DeleteAfterPut(d: Dict, k: string, v: int)
    requires k in d.values
    ensures Delete(Put(d, k, v), k) == Delete(d, k)
  {
    assert d.values[k := v] - {k} == d.values - {k};
  }

  /** The keys of `pairs`, in order, repeats included. */
  function PairKeys(pairs: seq<(string, int)>): (ks: seq<string>)
    ensures |ks| == |pairs|
    ensures forall i :: 0 <= i < |pairs| ==> ks[i] == pairs[i].0
  {
    if pairs == [] then [] else [pairs[0].0] + PairKeys(pairs[1..])
  }

  /** The keys of `pairs` not in `seen`, each at its first occurrence. */
  function NewKeys(pairs: seq<(string, int)>, seen: set<string>): (ks: seq<string>)
    ensures forall k :: k in ks <==> k in PairKeys(pairs) && k !in seen
    ensures NoDup(ks)
  {
    if pairs == [] then []
    else if pairs[0].0 in seen then NewKeys(pairs[1..], seen)
    else
      var rest := NewKeys(pairs[1..], seen + {pairs[0].0});
      assert PairKeys(pairs) == [pairs[0].0] + PairKeys(pairs[1..]);
      [pairs[0].0] + rest
  }

  /** `d.update(pairs)`: the pairs assigned one after another. */
  function UpdateAll(d: Dict, pairs: seq<(string, int)>): (r: Dict)
    ensures WellFormed(d) ==> WellFormed(r)
    ensures forall k :: k in d.values ==> k in r.values
    decreases |pairs|
  {
    if pairs == [] then d
    else UpdateAll(Put(d, pairs[0].0, pairs[0].1), pairs[1..])
  }

  /** After `d.update(pairs)` the keys are those of `d` and of `pairs`, and a
      key `pairs` does not mention keeps its value. */
  lemma {:induction false} UpdateAllEntries(d: Dict, pairs: seq<(string, int)>)
    ensures forall k :: k in UpdateAll(d, pairs).values <==> k in d.values || k in PairKeys(pairs)
    ensures forall k :: k in d.values && k !in PairKeys(pairs) ==> UpdateAll(d, pairs).values[k] == d.values[k]
    decreases |pairs|
  {
    if pairs != [] {
      var (k, v) := pairs[0];
      assert PairKeys(pairs) == [k] + PairKeys(pairs[1..]);
      UpdateAllEntries(Put(d, k, v), pairs[1..]);
    }
  }

  /** After `d.update(pairs)` the keys `d` lacked follow its own, each at the
      position of its first occurrence in `pairs`. */
  lemma {:induction false} UpdateAllOrder(d: Dict, pairs: seq<(string, int)>)
    ensures UpdateAll(d, pairs).keys == d.keys + NewKeys(pairs, d.values.Keys)
    decreases |pairs|
  {
    if pairs != [] {
      var (k, v) := pairs[0];
      var rest, d', seen := pairs[1..], Put(d, k, v), d.values.Keys;
      UpdateAllOrder(d', rest);
      assert UpdateAll(d, pairs) == UpdateAll(d', rest);
      if k in seen {
        assert d'.values.Keys == seen;
        assert NewKeys(pairs, seen) == NewKeys(rest, seen);
      } else {
        assert d'.keys == d.keys + [k];
        assert d'.values.Keys == seen + {k};
        assert NewKeys(pairs, seen) == [k] + NewKeys(rest, seen + {k});
      }
    }
  }

  /** After `d.update(pairs)`, a key holds the value of its last pair. */
  lemma {:induction false} UpdateAllLastWins(d: Dict, pairs: seq<(string, int)>, i: nat)
    requires i < |pairs|
    requires forall j :: i < j < |pairs| ==> pairs[j].0 != pairs[i].0
    ensures pairs[i].0 in UpdateAll(d, pairs).values
    ensures UpdateAll(d, pairs).values[pairs[i].0] == pairs[i].1
    decreases |pairs|
  {
    var (k, v) := pairs[0];
    var rest := pairs[1..];
    if i == 0 {
      assert k !in PairKeys(rest) by {
        forall j | 0 <= j < |rest| ensures PairKeys(rest)[j] != k {
          assert rest[j] == pairs[j + 1];
        }
      }
      UpdateAllEntries(Put(d, k, v), rest);
    } else {
      assert rest[i - 1] == pairs[i];
      forall j | i - 1 < j < |rest| ensures rest[j].0 != rest[i - 1].0 {
        assert rest[j] == pairs[j + 1];
      }
      UpdateAllLastWins(Put(d, k, v), rest, i - 1);
    }
  }

  /** The `(key, value)` pairs of the keys `ks`, in that order (`items()`). */
  function Items(ks: seq<string>, values: map<string, int>): (r: seq<(string, int)>)
    requires forall i :: 0 <= i < |ks| ==> ks[i] in values
    ensures |r| == |ks|
    ensures forall i :: 0 <= i < |r| ==> r[i].0 == ks[i] && r[i].1 == values[ks[i]]
  {
    if ks == [] then []
    else [(ks[0], values[ks[0]])] + Items(ks[1..], values)
  }

  /** The first `j` keys of `d` with their values. */
  function Prefix(d: Dict, j: nat): Dict
    requires WellFormed(d) && j <= |d.keys|
  {
    Dict(map k | k in d.keys[..j] :: d.values[k], d.keys[..j])
  }

  /** Filling an empty `dict` with the items of `d` rebuilds `d`, entries and order alike. */
  lemma ItemsRoundTrip(d: Dict)
    requires WellFormed(d)
    ensures UpdateAll(Empty, Items(d.keys, d.values)) == d
  {
    assert Prefix(d, 0) == Empty;
    assert d.keys[0..] == d.keys;
    ItemsRoundTripFrom(d, 0);
  }

  lemma {:induction false} ItemsRoundTripFrom(d: Dict, j: nat)
    requires WellFormed(d) && j <= |d.keys|
    ensures UpdateAll(Prefix(d, j), Items(d.keys[j..], d.values)) == d
    decreases |d.keys| - j
  {
    var ks := d.keys;
    if j == |ks| {
      assert ks[..j] == ks;
      assert Prefix(d, j).values == d.values;
    } else {
      assert ks[j..][1..] == ks[j + 1..];
      PrefixStep(d, j);
      ItemsRoundTripFrom(d, j + 1);
    }
  }

  lemma PrefixStep(d: Dict, j: nat)
    requires WellFormed(d) && j < |d.keys|
    ensures Put(Prefix(d, j), d.keys[j], d.values[d.keys[j]]) == Prefix(d, j + 1)
  {
    var ks, k := d.keys, d.keys[j];
    assert k !in ks[..j] by {
      forall i | 0 <= i < j ensures ks[..j][i] != k { assert ks[i] != ks[j]; }
    }
    assert ks[..j + 1] == ks[..j] + [k];
    var p, q := Prefix(d, j), Prefix(d, j + 1);
    assert k !in p.values;
    assert p.values[k := d.values[k]] == q.values;
  }
}
