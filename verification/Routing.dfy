/**
 Key routing: the hash-tag rule of HashSlotCalculator::CalculateWithTag
 (src/astra/cluster/shard_manager.hpp) and Worker::RouteToWorker
 (src/astra/server/worker.hpp). The CRC is an arbitrary hash function.
 */
module Routing {
  import opened Common

  const SLOT_COUNT: nat := 16384

  /** The part of the key that is hashed: the first non-empty {tag}, or the whole key. */
  function HashedPart(key: string): string {
    match Find(key, '{', 0)
    case None => key
    case Some(open) =>
      match Find(key, '}', open + 1)
      case None => key
      case Some(close) => if close > open + 1 then key[open + 1..close] else key
  }

  function Slot(hash: string -> nat, key: string): (slot: nat)
    ensures slot < SLOT_COUNT
  {
    hash(HashedPart(key)) % SLOT_COUNT
  }

  /** Bitwise and on naturals, for the worker-count mask. */
  function And(a: nat, b: nat): nat {
    if a == 0 || b == 0 then 0
    else (a % 2) * (b % 2) + 2 * And(a / 2, b / 2)
  }

  predicate IsPow2Test(n: nat) requires n > 0 { And(n, n - 1) == 0 }

  function RouteToWorker(hash: string -> nat, workers: nat, self: nat, key: string): (w: nat)
    requires workers > 0
    ensures w < workers
  {
    if key == "" then self % workers
    else
      var slot := Slot(hash, key);
      if IsPow2Test(workers) then
        (MaskIsModulo(slot, workers); And(slot, workers - 1))
      else slot % workers
  }

  lemma {:induction false} AndSelf(a: nat)
    ensures And(a, a) == a
  {
    if a != 0 { AndSelf(a / 2); }
  }

  lemma OddFailsTest(n: nat)
    requires n > 0
    ensures n > 1 && n % 2 == 1 ==> And(n, n - 1) > 0
  {
    if n > 1 && n % 2 == 1 {
      assert (n - 1) / 2 == n / 2;
      AndSelf(n / 2);
    }
  }

  lemma EvenTest(n: nat)
    requires n > 0 && n % 2 == 0
    ensures And(n, n - 1) == 2 * And(n / 2, n / 2 - 1)
  {
    assert (n - 1) / 2 == n / 2 - 1;
  }

  /** The mask route is the modulo route whenever the power-of-two test passes. */
  lemma {:induction false} MaskIsModulo(slot: nat, n: nat)
    requires n > 0 && IsPow2Test(n)
    ensures And(slot, n - 1) == slot % n
    decreases n
  {
    OddFailsTest(n);
    if n > 1 {
      var m := n / 2;
      EvenTest(n);
      MaskIsModulo(slot / 2, m);
      assert (n - 1) / 2 == m - 1 && (n - 1) % 2 == 1;
      assert And(slot, n - 1) == slot % 2 + 2 * And(slot / 2, m - 1);
      ModDouble(slot, m);
    }
  }

  lemma ModDouble(s: nat, m: nat)
    requires m > 0
    ensures s % 2 + 2 * ((s / 2) % m) == s % (2 * m)
  {
    var q, r := (s / 2) / m, (s / 2) % m;
    assert s == (2 * m) * q + (2 * r + s % 2) by {
      assert s / 2 == m * q + r;
      assert 2 * (m * q) == (2 * m) * q;
    }
    ModUnique(2 * m, q, 2 * r + s % 2);
  }

  lemma MultipleIsFar(k: int, d: int)
    requires d > 0
    ensures k >= 1 ==> k * d >= d
    ensures k <= -1 ==> k * d <= -d
  {
    if k >= 1 {
      assert (k - 1) * d >= 0;
    } else if k <= -1 {
      assert (-k - 1) * d >= 0;
    }
  }

  lemma ModUnique(d: nat, q: nat, r: nat)
    requires r < d
    ensures (d * q + r) % d == r
  {
    var s := d * q + r;
    var k := s / d - q;
    assert s == d * (s / d) + s % d;
    assert k * d == d * (s / d) - d * q;
    MultipleIsFar(k, d);
  }

  /** 2 to the power e. */
  function Pow2(e: nat): (p: nat)
    ensures p >= 1
  {
    if e == 0 then 1 else 2 * Pow2(e - 1)
  }

  ghost predicate IsPow2(n: nat) { exists e: nat :: n == Pow2(e) }

  lemma OddIsNoPow2(n: nat)
    requires n > 1 && n % 2 == 1
    ensures !IsPow2(n)
  {
    forall e: nat ensures n != Pow2(e) {
      assert e > 0 ==> Pow2(e) == 2 * Pow2(e - 1);
    }
  }

  lemma HalvePow2(m: nat)
    requires m > 0
    ensures IsPow2(2 * m) <==> IsPow2(m)
  {
    if e: nat :| m == Pow2(e) {
      assert 2 * m == Pow2(e + 1);
    }
    if e: nat :| 2 * m == Pow2(e) {
      assert e > 0;
      assert m == Pow2(e - 1);
    }
  }

  /** The test accepts exactly the powers of two. */
  lemma {:induction false} Pow2TestExact(n: nat)
    requires n > 0
    ensures IsPow2Test(n) <==> IsPow2(n)
    decreases n
  {
    OddFailsTest(n);
    if n == 1 {
      assert n == Pow2(0);
    } else if n % 2 == 1 {
      OddIsNoPow2(n);
    } else {
      EvenTest(n);
      Pow2TestExact(n / 2);
      HalvePow2(n / 2);
    }
  }

  /** All workers route a key alike exactly when the key is non-empty or there is one worker. */
  lemma RouteIsConsistent(hash: string -> nat, workers: nat, key: string)
    requires workers > 0
    ensures (forall a: nat, b: nat | a < workers && b < workers ::
               RouteToWorker(hash, workers, a, key) == RouteToWorker(hash, workers, b, key))
            <==> (key != "" || workers == 1)
    ensures key != "" ==> RouteToWorker(hash, workers, 0, key) == hash(HashedPart(key)) % 16384 % workers
  {
    if key != "" && IsPow2Test(workers) {
      MaskIsModulo(Slot(hash, key), workers);
    }
    if key == "" && workers > 1 {
      assert RouteToWorker(hash, workers, 0, key) != RouteToWorker(hash, workers, 1, key);
    }
  }

  /** A key written as prefix{tag}suffix, with `{` not in the prefix and a non-empty tag without `}`. */
  predicate Tagged(key: string, prefix: string, tag: string, suffix: string) {
    && key == prefix + "{" + tag + "}" + suffix
    && '{' !in prefix
    && tag != ""
    && '}' !in tag
  }

  lemma TagIsHashed(key: string, prefix: string, tag: string, suffix: string)
    requires Tagged(key, prefix, tag, suffix)
    ensures HashedPart(key) == tag
  {
    var p, t := |prefix|, |tag|;
    assert key[0..p] == prefix;
    FindIs(key, '{', 0, p);
    assert key[p + 1..p + 1 + t] == tag;
    FindIs(key, '}', p + 1, p + 1 + t);
  }

  /** A key without such a tag is hashed whole. */
  lemma UntaggedIsHashedWhole(key: string)
    requires forall prefix, tag, suffix :: !Tagged(key, prefix, tag, suffix)
    ensures HashedPart(key) == key
  {
    var open := Find(key, '{', 0);
    if open.Some? && Find(key, '}', open.value + 1).Some? {
      var i, j := open.value, Find(key, '}', open.value + 1).value;
      assert i + 1 < j ==> Tagged(key, key[..i], key[i + 1..j], key[j + 1..]);
    }
  }

  /** Keys with the same non-empty hash tag share a slot and a worker, whatever the hash. */
  lemma SameTagColocates(hash: string -> nat, workers: nat, a: nat, b: nat,
                         k1: string, p1: string, s1: string,
                         k2: string, p2: string, s2: string, tag: string)
    requires workers > 0
    requires Tagged(k1, p1, tag, s1) && Tagged(k2, p2, tag, s2)
    ensures Slot(hash, k1) == Slot(hash, k2)
    ensures RouteToWorker(hash, workers, a, k1) == RouteToWorker(hash, workers, b, k2)
  {
    TagIsHashed(k1, p1, tag, s1);
    TagIsHashed(k2, p2, tag, s2);
  }
}
