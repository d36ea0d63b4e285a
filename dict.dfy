/** A JavaScript plain object used as a dictionary: its keys in insertion
    order (the order `Object.keys`, `Object.entries` and `forEach` visit
    them), each with one value. */
module Dict {
  import opened Js

  type Dict<V> = seq<(string, V)>

  /** No key occurs twice: the first key is not among the rest, and the rest
      are distinct. */
  predicate DistinctKeys<V>(d: Dict<V>)
  {
    d == [] || (d[0].0 !in KeySet(d[1..]) && DistinctKeys(d[1..]))
  }

  function KeySet<V>(d: Dict<V>): (ks: set<string>)
    ensures forall i :: 0 <= i < |d| ==> d[i].0 in ks
  {
    if d == [] then {} else {d[0].0} + KeySet(d[1..])
  }

  /** `Object.keys(d)`. */
  function Keys<V>(d: Dict<V>): (ks: seq<string>)
    ensures |ks| == |d| && forall i :: 0 <= i < |d| ==> ks[i] == d[i].0
  {
    if d == [] then [] else [d[0].0] + Keys(d[1..])
  }

  lemma {:induction false} KeySetAppend<V>(a: Dict<V>, b: Dict<V>)
    ensures KeySet(a + b) == KeySet(a) + KeySet(b)
  {
    if a != [] {
      assert (a + b)[0] == a[0] && (a + b)[1..] == a[1..] + b;
      KeySetAppend(a[1..], b);
    } else {
      assert a + b == b;
    }
  }

  /** `d[k]`, with `None` for a missing key. */
  function Get<V>(d: Dict<V>, k: string): (r: Option<V>)
    ensures r.None? <==> k !in KeySet(d)
  {
    if d == [] then None
    else if d[0].0 == k then Some(d[0].1)
    else Get(d[1..], k)
  }

  /** `d[k] = v`: an existing key keeps its place and takes the new value; a new
      key is added at the end. */
  function Assign<V>(d: Dict<V>, k: string, v: V): (r: Dict<V>)
  {
    if d == [] then [(k, v)]
    else if d[0].0 == k then [(k, v)] + d[1..]
    else [d[0]] + Assign(d[1..], k, v)
  }

  /** After `d[k] = v`, `k` holds `v`, every other key holds what it held,
      and the keys are those of `d` and `k`: in place when `k` was there,
      with `k` last otherwise. */
  lemma {:induction false} AssignFacts<V>(d: Dict<V>, k: string, v: V)
    ensures KeySet(Assign(d, k, v)) == KeySet(d) + {k}
    ensures Get(Assign(d, k, v), k) == Some(v)
    ensures forall k' :: k' != k ==> Get(Assign(d, k, v), k') == Get(d, k')
    ensures k in KeySet(d) ==> |Assign(d, k, v)| == |d| && forall i :: 0 <= i < |d| ==> Assign(d, k, v)[i].0 == d[i].0
    ensures k !in KeySet(d) ==> Assign(d, k, v) == d + [(k, v)]
  {
    var r := Assign(d, k, v);
    if d == [] {
    } else if d[0].0 == k {
      assert r[1..] == d[1..];
    } else {
      AssignFacts(d[1..], k, v);
      assert r[1..] == Assign(d[1..], k, v);
      if k !in KeySet(d) {
        assert d == [d[0]] + d[1..];
      }
    }
  }

  /** Assigning the value a key already holds changes nothing. */
  lemma {:induction false} AssignAgain<V>(d: Dict<V>, k: string, v: V)
    ensures Assign(Assign(d, k, v), k, v) == Assign(d, k, v)
  {
    if d != [] && d[0].0 != k {
      AssignAgain(d[1..], k, v);
      assert Assign(d, k, v)[1..] == Assign(d[1..], k, v);
    }
  }

  /** Distinct keys are pairwise different. */
  lemma {:induction false} DistinctKeysPairwise<V>(d: Dict<V>)
    ensures DistinctKeys(d) <==> forall i, j :: 0 <= i < j < |d| ==> d[i].0 != d[j].0
  {
    if d != [] {
      DistinctKeysPairwise(d[1..]);
      if DistinctKeys(d) {
        forall i, j | 0 <= i < j < |d| ensures d[i].0 != d[j].0 {
          assert d[j] == d[1..][j - 1];
          if i > 0 {
            assert d[i] == d[1..][i - 1];
          }
        }
      }
      if forall i, j :: 0 <= i < j < |d| ==> d[i].0 != d[j].0 {
        assert forall i, j :: 0 <= i < j < |d[1..]| ==> d[1..][i].0 != d[1..][j].0 by {
          forall i, j | 0 <= i < j < |d[1..]| ensures d[1..][i].0 != d[1..][j].0 {
            assert d[1..][i] == d[i + 1] && d[1..][j] == d[j + 1];
          }
        }
        forall i | 0 <= i < |d[1..]| ensures d[1..][i].0 != d[0].0 {
          assert d[1..][i] == d[i + 1];
        }
        KeyAbsent(d[1..], d[0].0);
      }
    }
  }

  /** A key no entry carries is not among the keys. */
  lemma {:induction false} KeyAbsent<V>(d: Dict<V>, k: string)
    requires forall i :: 0 <= i < |d| ==> d[i].0 != k
    ensures k !in KeySet(d)
  {
    if d != [] {
      assert forall i :: 0 <= i < |d[1..]| ==> d[1..][i] == d[i + 1];
      KeyAbsent(d[1..], k);
    }
  }

  /** Assigning keeps the keys of a dictionary distinct. */
  lemma {:induction false} AssignDistinct<V>(d: Dict<V>, k: string, v: V)
    requires DistinctKeys(d)
    ensures DistinctKeys(Assign(d, k, v))
  {
    if d != [] {
      var r := Assign(d, k, v);
      if d[0].0 == k {
        assert r[1..] == d[1..];
      } else {
        AssignDistinct(d[1..], k, v);
        AssignFacts(d[1..], k, v);
        assert r[1..] == Assign(d[1..], k, v);
      }
    }
  }

  /** `Object.assign(d, e)`: the entries of `e` assigned into `d` in order. */
  function AssignAll<V>(d: Dict<V>, e: Dict<V>): (r: Dict<V>)
    ensures KeySet(r) == KeySet(d) + KeySet(e)
    decreases e
  {
    if e == [] then d
    else
      AssignFacts(d, e[0].0, e[0].1);
      AssignAll(Assign(d, e[0].0, e[0].1), e[1..])
  }

  lemma {:induction false} AssignAllDistinct<V>(d: Dict<V>, e: Dict<V>)
    requires DistinctKeys(d)
    ensures DistinctKeys(AssignAll(d, e))
    decreases e
  {
    if e != [] {
      AssignDistinct(d, e[0].0, e[0].1);
      AssignAllDistinct(Assign(d, e[0].0, e[0].1), e[1..]);
    }
  }

  /** The entries of a dictionary as a set of pairs. */
  ghost function EntrySet<V>(d: Dict<V>): set<(string, V)>
  {
    if d == [] then {} else {d[0]} + EntrySet(d[1..])
  }

  lemma {:induction false} AssignEntries<V>(d: Dict<V>, k: string, v: V)
    ensures EntrySet(Assign(d, k, v)) <= EntrySet(d) + {(k, v)}
  {
    if d != [] {
      var r := Assign(d, k, v);
      if d[0].0 == k {
        assert r[1..] == d[1..];
      } else {
        AssignEntries(d[1..], k, v);
        assert r[1..] == Assign(d[1..], k, v);
      }
    }
  }

  /** The value the last entry of `e` with key `k` carries, `None` when no
      entry has that key. */
  function LastOf<V>(e: Dict<V>, k: string): (r: Option<V>)
    ensures r.None? <==> k !in KeySet(e)
  {
    if e == [] then None
    else
      var rest := LastOf(e[1..], k);
      if rest.Some? then rest else if e[0].0 == k then Some(e[0].1) else None
  }

  /** After `Object.assign(d, e)`, a key of `e` holds the value of its last
      entry in `e`, every other key keeps its value in `d`, and every entry
      comes from `d` or `e`. */
  lemma {:induction false} AssignAllEntries<V>(d: Dict<V>, e: Dict<V>)
    ensures forall k :: Get(AssignAll(d, e), k) == if LastOf(e, k).Some? then LastOf(e, k) else Get(d, k)
    ensures EntrySet(AssignAll(d, e)) <= EntrySet(d) + EntrySet(e)
    decreases e
  {
    if e != [] {
      var d' := Assign(d, e[0].0, e[0].1);
      AssignFacts(d, e[0].0, e[0].1);
      AssignEntries(d, e[0].0, e[0].1);
      AssignAllEntries(d', e[1..]);
    }
  }

  /** When the keys of `e` are distinct, its last entry for a key is its
      only one. */
  lemma {:induction false} LastOfDistinct<V>(e: Dict<V>, k: string)
    requires DistinctKeys(e)
    ensures LastOf(e, k) == Get(e, k)
  {
    if e != [] {
      LastOfDistinct(e[1..], k);
    }
  }

  /** The dictionary as a map: each key with its value. */
  function ToMap<V>(d: Dict<V>): (m: map<string, V>)
    ensures m.Keys == KeySet(d)
    ensures forall k :: k in m ==> Get(d, k) == Some(m[k])
  {
    if d == [] then map[]
    else ToMap(d[1..])[d[0].0 := d[0].1]
  }
}
