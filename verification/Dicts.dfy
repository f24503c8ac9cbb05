/**
 Dictionaries with integer keys, visited in ascending order as `sorted` does.
 */
module Dicts {
  predicate IsLeast(k: int, keys: set<int>) {
    k in keys && forall other | other in keys :: k <= other
  }

  lemma {:induction false} LeastExists(keys: set<int>, any: int)
    requires any in keys
    ensures exists k :: IsLeast(k, keys)
    decreases |keys|
  {
    if exists other :: other in keys && other < any {
      var other :| other in keys && other < any;
      var rest := keys - {any};
      LeastExists(rest, other);
      var k :| IsLeast(k, rest);
      assert k <= other;
      forall o | o in keys ensures k <= o {
        assert o != any ==> o in rest;
      }
      assert IsLeast(k, keys);
    } else {
      assert IsLeast(any, keys);
    }
  }

  lemma {:induction false} NotEmpty(keys: set<int>)
    requires keys != {}
    ensures exists k :: k in keys
  {
    if forall k :: k !in keys {
      assert false;
    }
  }

  function Least(keys: set<int>): (k: int)
    requires keys != {}
    ensures IsLeast(k, keys)
  {
    NotEmpty(keys);
    ghost var any :| any in keys;
    LeastExists(keys, any);
    var k :| IsLeast(k, keys);
    k
  }

  /** `sorted(keys)`. */
  function Ascending(keys: set<int>): (ks: seq<int>)
    ensures |ks| == |keys|
    decreases |keys|
  {
    if keys == {} then [] else [Least(keys)] + Ascending(keys - {Least(keys)})
  }

  /** All of `keys`, each once, in strictly growing order. */
  predicate IsSortOf(ks: seq<int>, keys: set<int>) {
    && (forall i | 0 <= i < |ks| :: ks[i] in keys)
    && (forall k | k in keys :: k in ks)
    && (forall i, j | 0 <= i < j < |ks| :: ks[i] < ks[j])
  }

  lemma {:induction false} AscendingSorted(keys: set<int>)
    ensures IsSortOf(Ascending(keys), keys)
    decreases |keys|
  {
    if keys == {} {
    } else {
      var rest := keys - {Least(keys)};
      AscendingSorted(rest);
      Prepend(Least(keys), Ascending(rest), keys, rest);
    }
  }

  lemma {:induction false} Prepend(least: int, more: seq<int>, keys: set<int>, rest: set<int>)
    requires IsSortOf(more, rest) && least in keys && rest == keys - {least}
    requires forall k | k in rest :: least < k
    ensures IsSortOf([least] + more, keys)
  {
    var ks := [least] + more;
    forall k | k in keys ensures k in ks {
      assert k != least ==> k in rest;
    }
    forall i, j | 0 <= i < j < |ks| ensures ks[i] < ks[j] {
      assert ks[j] == more[j - 1];
    }
  }

  predicate AllIn<T>(m: map<int, T>, ids: seq<int>) {
    forall i | 0 <= i < |ids| :: ids[i] in m
  }

  function Picked<T>(m: map<int, T>, ids: seq<int>): (s: seq<T>)
    requires AllIn(m, ids)
  {
    if ids == [] then [] else [m[ids[0]]] + Picked(m, ids[1..])
  }

  /** Putting the entries of `ids` into `result` one by one. */
  function Rebuild<T>(m: map<int, T>, ids: seq<int>, result: map<int, T>): map<int, T>
    requires AllIn(m, ids)
    decreases |ids|
  {
    if ids == [] then result else Rebuild(m, ids[1..], result[ids[0] := m[ids[0]]])
  }

  lemma {:induction false} RebuildAt<T>(m: map<int, T>, ids: seq<int>, result: map<int, T>, id: int)
    requires AllIn(m, ids)
    ensures var r := Rebuild(m, ids, result);
            if id in ids then id in m && id in r && r[id] == m[id]
            else if id in result then id in r && r[id] == result[id]
            else id !in r
    decreases |ids|
  {
    if ids == [] {
    } else {
      RebuildAt(m, ids[1..], result[ids[0] := m[ids[0]]], id);
      assert ids == [ids[0]] + ids[1..];
    }
  }

  /** Putting back every entry, in ascending order, restores the dictionary. */
  lemma {:induction false} RebuildAll<T>(m: map<int, T>)
    ensures AllIn(m, Ascending(m.Keys)) && Rebuild(m, Ascending(m.Keys), map[]) == m
  {
    AscendingSorted(m.Keys);
    var ids := Ascending(m.Keys);
    var r := Rebuild(m, ids, map[]);
    forall id ensures (id in r <==> id in m) && (id in r ==> r[id] == m[id]) {
      RebuildAt(m, ids, map[], id);
      assert id in ids <==> id in m.Keys;
    }
  }

  /** The values of a dictionary in the order of its keys. */
  function Sorted<T>(m: map<int, T>): seq<T> {
    AscendingSorted(m.Keys);
    Picked(m, Ascending(m.Keys))
  }

  /** Taking the entries of `ids` out one by one. */
  function Pop<T>(m: map<int, T>, ids: seq<int>): map<int, T>
    decreases |ids|
  {
    if ids == [] then m else Pop(m - {ids[0]}, ids[1..])
  }

  lemma {:induction false} PopAt<T>(m: map<int, T>, ids: seq<int>, id: int)
    ensures var r := Pop(m, ids); (id in r <==> id in m && id !in ids) && (id in r ==> r[id] == m[id])
    decreases |ids|
  {
    if ids == [] {
    } else {
      PopAt(m - {ids[0]}, ids[1..], id);
      assert ids == [ids[0]] + ids[1..];
    }
  }

  lemma {:induction false} PopAll<T>(m: map<int, T>, keys: set<int>)
    ensures Pop(m, Ascending(keys)) == m - keys
  {
    AscendingSorted(keys);
    var ids := Ascending(keys);
    var r, expected := Pop(m, ids), m - keys;
    forall id ensures (id in r <==> id in expected) && (id in r ==> r[id] == expected[id]) {
      PopAt(m, ids, id);
      assert id in ids <==> id in keys;
    }
  }
}
