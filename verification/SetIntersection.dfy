/**
 SINTER on one shard: Database::SInterLocal (src/astra/commands/database.hpp), and the two loops of
 Worker::SendBatchRequest that group keys by worker and aggregate the partial results
 (src/astra/server/worker.hpp).
 */
module SetIntersection {

  type Sets = map<string, set<string>>

  function Elems(s: seq<string>): set<string> { set x | x in s }

  predicate NoDuplicates(s: seq<string>) {
    forall i, j | 0 <= i < j < |s| :: s[i] != s[j]
  }

  lemma ElemsPush(s: seq<string>, x: string)
    ensures Elems(s + [x]) == Elems(s) + {x}
  {
    forall y ensures y in s + [x] <==> y in s || y == x {}
  }

  /** A missing set is empty. */
  function Members(sets: Sets, key: string): set<string> {
    if key in sets then sets[key] else {}
  }

  /** The members common to all the named sets. */
  function Intersection(sets: Sets, keys: seq<string>): set<string>
    requires keys != []
  {
    set x | x in Members(sets, keys[0]) && forall k | k in keys :: x in Members(sets, k)
  }

  lemma IntersectionExtend(sets: Sets, keys: seq<string>, key: string)
    requires keys != []
    ensures Intersection(sets, keys + [key]) == Intersection(sets, keys) * Members(sets, key)
  {
    var all := keys + [key];
    assert all[0] == keys[0];
    forall k ensures k in all <==> k in keys || k == key {}
  }

  lemma IntersectionShrinks(sets: Sets, keys: seq<string>, n: nat)
    requires 0 < n <= |keys|
    ensures Intersection(sets, keys) <= Intersection(sets, keys[..n])
  {
    forall k | k in keys[..n] ensures k in keys {}
  }

  /** GetAll of a set: some enumeration of it without repetition. */
  method Enumerate(s: set<string>) returns (r: seq<string>)
    ensures NoDuplicates(r) && Elems(r) == s
  {
    r := [];
    var rest := s;
    while rest != {}
      invariant NoDuplicates(r) && rest <= s && Elems(r) == s - rest
      decreases rest
    {
      var x :| x in rest;
      ElemsPush(r, x);
      r := r + [x];
      rest := rest - {x};
    }
  }

  /** The members of `from` that `keep` contains, in order. */
  method Filter(from: seq<string>, keep: set<string>) returns (temp: seq<string>)
    requires NoDuplicates(from)
    ensures NoDuplicates(temp) && Elems(temp) == Elems(from) * keep
  {
    temp := [];
    for i := 0 to |from|
      invariant NoDuplicates(temp)
      invariant Elems(temp) == Elems(from[..i]) * keep
    {
      assert from[..i + 1] == from[..i] + [from[i]];
      assert from[i] !in from[..i];
      ElemsPush(from[..i], from[i]);
      if from[i] in keep {
        ElemsPush(temp, from[i]);
        temp := temp + [from[i]];
      }
    }
    assert from[..|from|] == from;
  }

  method SInterLocal(sets: Sets, keys: seq<string>) returns (result: seq<string>)
    ensures NoDuplicates(result)
    ensures keys == [] ==> result == []
    ensures keys != [] ==> Elems(result) == Intersection(sets, keys)
  {
    if keys == [] {
      return [];
    }
    if keys[0] !in sets {
      return [];
    }
    result := Enumerate(sets[keys[0]]);
    assert Intersection(sets, keys[..1]) == Members(sets, keys[0]);
    for i := 1 to |keys|
      invariant NoDuplicates(result)
      invariant Elems(result) == Intersection(sets, keys[..i])
    {
      assert keys[..i + 1] == keys[..i] + [keys[i]];
      IntersectionExtend(sets, keys[..i], keys[i]);
      IntersectionShrinks(sets, keys, i + 1);
      if keys[i] !in sets {
        return [];
      }
      result := Filter(result, sets[keys[i]]);
      if result == [] {
        break;
      }
    }
    IntersectionShrinks(sets, keys, |keys|);
    assert keys[..|keys|] == keys;
  }

  // ----- Grouping keys by worker -----

  /** The keys a worker is asked for, in the order given. */
  function KeysOf(route: string -> nat, keys: seq<string>, w: nat): seq<string> {
    if keys == [] then []
    else
      KeysOf(route, keys[..|keys| - 1], w)
      + (if route(keys[|keys| - 1]) == w then [keys[|keys| - 1]] else [])
  }

  lemma {:induction false} KeysOfMembers(route: string -> nat, keys: seq<string>, w: nat, k: string)
    ensures k in KeysOf(route, keys, w) <==> k in keys && route(k) == w
  {
    if keys != [] {
      KeysOfMembers(route, keys[..|keys| - 1], w, k);
      assert keys == keys[..|keys| - 1] + [keys[|keys| - 1]];
    }
  }

  method GroupKeys(route: string -> nat, keys: seq<string>) returns (groups: map<nat, seq<string>>)
    ensures forall w :: w in groups <==> KeysOf(route, keys, w) != []
    ensures forall w | w in groups :: groups[w] == KeysOf(route, keys, w)
  {
    groups := map[];
    for i := 0 to |keys|
      invariant forall w :: w in groups <==> KeysOf(route, keys[..i], w) != []
      invariant forall w | w in groups :: groups[w] == KeysOf(route, keys[..i], w)
    {
      var w := route(keys[i]);
      assert keys[..i + 1][..i] == keys[..i];
      groups := groups[w := (if w in groups then groups[w] else []) + [keys[i]]];
    }
    assert keys[..|keys|] == keys;
  }

  // ----- Aggregating partial results -----

  /** Members common to all partial results. */
  function InAll(results: seq<seq<string>>): set<string>
    requires results != []
  {
    set x | x in results[0] && forall r | r in results :: x in r
  }

  lemma InAllExtend(results: seq<seq<string>>, r: seq<string>)
    requires results != []
    ensures InAll(results + [r]) == InAll(results) * Elems(r)
  {
    var all := results + [r];
    assert all[0] == results[0];
    forall x ensures x in all <==> x in results || x == r {}
  }

  lemma InAllShrinks(results: seq<seq<string>>, n: nat)
    requires 0 < n <= |results|
    ensures InAll(results) <= InAll(results[..n])
  {
    forall r | r in results[..n] ensures r in results {}
  }

  method Aggregate(results: seq<seq<string>>) returns (final: seq<string>)
    requires forall r | r in results :: NoDuplicates(r)
    ensures NoDuplicates(final)
    ensures Elems(final) == if results == [] then {} else InAll(results)
  {
    if results == [] {
      return [];
    }
    final := results[0];
    assert InAll(results[..1]) == Elems(results[0]);
    for i := 1 to |results|
      invariant NoDuplicates(final)
      invariant Elems(final) == InAll(results[..i])
    {
      assert results[..i + 1] == results[..i] + [results[i]];
      InAllExtend(results[..i], results[i]);
      InAllShrinks(results, i + 1);
      final := Filter(final, Elems(results[i]));
      if final == [] {
        break;
      }
    }
    assert results[..|results|] == results;
  }
}
