/** Small datatypes and sequence helpers shared by the models. */
module Common {

  datatype Option<+T> = None | Some(value: T)

  /** The sequence without the element at position `i`. */
  function RemoveAt<T>(s: seq<T>, i: nat): seq<T>
    requires i < |s|
  {
    s[..i] + s[i + 1..]
  }

  function Map<T, U>(s: seq<T>, f: T -> U): seq<U> { seq(|s|, i requires 0 <= i < |s| => f(s[i])) }

  lemma MapFront<T, U>(s: seq<T>, f: T -> U)
    requires s != []
    ensures Map(s, f) == [f(s[0])] + Map(s[1..], f)
  {
  }

  lemma MapPush<T, U>(s: seq<T>, x: T, f: T -> U)
    ensures Map(s + [x], f) == Map(s, f) + [f(x)]
  {
  }

  /** Concatenation of a list of sequences. */
  function Flatten<T>(parts: seq<seq<T>>): seq<T> {
    if parts == [] then [] else Flatten(parts[..|parts| - 1]) + parts[|parts| - 1]
  }

  lemma FlattenPush<T>(parts: seq<seq<T>>, last: seq<T>)
    ensures Flatten(parts + [last]) == Flatten(parts) + last
  {
    assert (parts + [last])[..|parts|] == parts;
  }

  lemma {:induction false} FlattenFront<T>(parts: seq<seq<T>>)
    requires parts != []
    ensures Flatten(parts) == parts[0] + Flatten(parts[1..])
  {
    if |parts| == 1 {
      assert parts[..0] == [] && parts[1..] == [];
    } else {
      var init := parts[..|parts| - 1];
      FlattenFront(init);
      assert init[1..] == parts[1..][..|parts[1..]| - 1];
    }
  }

  /** std::memchr: the first index of `c` at or after `from`. */
  function Find(s: string, c: char, from: nat): (r: Option<nat>)
    requires from <= |s|
    ensures r.None? ==> c !in s[from..]
    ensures r.Some? ==> from <= r.value < |s| && s[r.value] == c && c !in s[from..r.value]
    decreases |s| - from
  {
    if from == |s| then None
    else if s[from] == c then Some(from)
    else
      var r := Find(s, c, from + 1);
      assert s[from..] == [s[from]] + s[from + 1..];
      assert r.Some? ==> s[from..r.value] == [s[from]] + s[from + 1..r.value];
      r
  }

  lemma {:induction false} FindIs(s: string, c: char, from: nat, i: nat)
    requires from <= i < |s| && s[i] == c && c !in s[from..i]
    ensures Find(s, c, from) == Some(i)
    decreases i - from
  {
    if from < i {
      assert s[from..i] == [s[from]] + s[from + 1..i];
      FindIs(s, c, from + 1, i);
    }
  }

  lemma FlattenMapFront<T, U>(s: seq<T>, f: T -> seq<U>)
    requires s != []
    ensures Flatten(Map(s, f)) == f(s[0]) + Flatten(Map(s[1..], f))
  {
    FlattenFront(Map(s, f));
    MapFront(s, f);
  }

  lemma FlattenMapPush<T, U>(s: seq<T>, x: T, f: T -> seq<U>)
    ensures Flatten(Map(s + [x], f)) == Flatten(Map(s, f)) + f(x)
  {
    MapPush(s, x, f);
    FlattenPush(Map(s, f), f(x));
  }

  /** What `f` makes of each element, joined in order. */
  function Collect<T, U>(q: seq<T>, f: T -> seq<U>): seq<U> {
    if q == [] then [] else Collect(q[..|q| - 1], f) + f(q[|q| - 1])
  }

  lemma CollectPush<T, U>(q: seq<T>, x: T, f: T -> seq<U>)
    ensures Collect(q + [x], f) == Collect(q, f) + f(x)
  {
    assert (q + [x])[..|q|] == q;
  }

  lemma {:induction false} CollectNone<T, U>(q: seq<T>, f: T -> seq<U>)
    requires forall j | 0 <= j < |q| :: f(q[j]) == []
    ensures Collect(q, f) == []
  {
    if q != [] {
      CollectNone(q[..|q| - 1], f);
    }
  }

  /** Taking out the first element that contributes takes its contribution off the front. */
  lemma {:induction false} CollectTake<T, U>(q: seq<T>, i: nat, f: T -> seq<U>)
    requires i < |q| && (f(q[i]) != [] ==> forall j | 0 <= j < i :: f(q[j]) == [])
    ensures Collect(q, f) == f(q[i]) + Collect(RemoveAt(q, i), f)
  {
    var n := |q| - 1;
    var init := q[..n];
    if i == n {
      assert RemoveAt(q, i) == init;
      if f(q[i]) != [] {
        CollectNone(init, f);
      }
    } else {
      CollectTake(init, i, f);
      assert RemoveAt(q, i) == RemoveAt(init, i) + [q[n]];
      CollectPush(RemoveAt(init, i), q[n], f);
    }
  }

  /** Lookup in a finite map, as an option. */
  function Get<K, V>(m: map<K, V>, k: K): Option<V> {
    if k in m then Some(m[k]) else None
  }

  /** Store or erase: the inverse view of `Get`. */
  function Put<K, V>(m: map<K, V>, k: K, v: Option<V>): map<K, V> {
    match v
    case Some(x) => m[k := x]
    case None => m - {k}
  }

  // ----- Counting -----

  function One(b: bool): nat { if b then 1 else 0 }

  /** How many elements satisfy `p`. */
  function Count<T>(s: seq<T>, p: T -> bool): nat {
    if s == [] then 0 else Count(s[..|s| - 1], p) + One(p(s[|s| - 1]))
  }

  lemma CountPush<T>(s: seq<T>, x: T, p: T -> bool)
    ensures Count(s + [x], p) == Count(s, p) + One(p(x))
  {
    assert (s + [x])[..|s|] == s;
  }

  lemma {:induction false} CountTake<T>(s: seq<T>, i: nat, p: T -> bool)
    requires i < |s|
    ensures Count(s, p) == Count(RemoveAt(s, i), p) + One(p(s[i]))
  {
    var n := |s| - 1;
    if i == n {
      assert RemoveAt(s, i) == s[..n];
    } else {
      CountTake(s[..n], i, p);
      assert RemoveAt(s, i) == RemoveAt(s[..n], i) + [s[n]];
      CountPush(RemoveAt(s[..n], i), s[n], p);
    }
  }

  lemma {:induction false} CountZero<T>(s: seq<T>, p: T -> bool)
    ensures Count(s, p) == 0 <==> forall i | 0 <= i < |s| :: !p(s[i])
  {
    if s != [] {
      CountZero(s[..|s| - 1], p);
    }
  }

  /** Element `i` satisfies `p` and no other does. */
  predicate IsOnly<T>(s: seq<T>, p: T -> bool, i: int) {
    0 <= i < |s| && p(s[i]) && forall j | 0 <= j < |s| && p(s[j]) :: j == i
  }

  lemma CountOne<T>(s: seq<T>, p: T -> bool)
    requires Count(s, p) == 1
    ensures exists i :: IsOnly(s, p, i)
  {
    CountZero(s, p);
    var i :| 0 <= i < |s| && p(s[i]);
    CountTake(s, i, p);
    var rest := RemoveAt(s, i);
    CountZero(rest, p);
    forall j | 0 <= j < |s| && j != i ensures !p(s[j]) {
      assert s[j] == rest[if j < i then j else j - 1];
    }
    assert IsOnly(s, p, i);
  }
}
