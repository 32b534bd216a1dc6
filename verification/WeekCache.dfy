/** The bounded week cache: first in, first out, and every hit is the value last set. */
module WeekCache {
  import opened Wrappers
  import opened Orders

  /** What a cache holds: values by key, and the keys from oldest to newest. */
  datatype Shelf<K, V> = Shelf(items: map<K, V>, order: seq<K>)

  /** The order lists exactly the keys, each once, and there are at most max of them. */
  ghost predicate Sound<K, V>(c: Shelf<K, V>, max: nat) {
    && max >= 1
    && NoRepeats(c.order)
    && (forall k | k in c.order :: k in c.items) && (forall k | k in c.items :: k in c.order)
    && |c.order| == |c.items| <= max
  }

  function Capacity(maxEntries: int): nat {
    if maxEntries <= 0 then 1 else maxEntries
  }

  /** Storing a value: in place for a key already held, else at the end, the oldest making room. */
  ghost function Put<K, V>(c: Shelf<K, V>, k: K, v: V, max: nat): Shelf<K, V> {
    if k in c.items then c.(items := c.items[k := v])
    else if |c.items| >= max && c.order != [] then Shelf((c.items - {c.order[0]})[k := v], c.order[1..] + [k])
    else Shelf(c.items[k := v], c.order + [k])
  }

  lemma {:induction false} AddedSize<K, V>(m: map<K, V>, k: K, v: V)
    requires k !in m
    ensures |m[k := v]| == |m| + 1
  {
  }

  lemma {:induction false} ReplacedSize<K, V>(m: map<K, V>, k: K, v: V)
    requires k in m
    ensures |m[k := v]| == |m|
  {
  }

  lemma {:induction false} PutIsSound<K, V>(c: Shelf<K, V>, k: K, v: V, max: nat)
    requires Sound(c, max)
    ensures Sound(Put(c, k, v, max), max)
  {
  }

  /** What is held after storing: the new value, and values held before. */
  lemma {:induction false} PutEntries<K, V>(c: Shelf<K, V>, k: K, v: V, max: nat, x: K)
    requires x in Put(c, k, v, max).items
    ensures x == k ==> Put(c, k, v, max).items[x] == v
    ensures x != k ==> x in c.items && Put(c, k, v, max).items[x] == c.items[x]
  {
  }

  /** Which keys are held, and in what order, does not depend on the values. */
  lemma {:induction false} PutSameKeys<K, V, W>(c: Shelf<K, V>, d: Shelf<K, W>, k: K, v: V, w: W, max: nat)
    requires c.items.Keys == d.items.Keys && c.order == d.order
    ensures Put(c, k, v, max).items.Keys == Put(d, k, w, max).items.Keys
    ensures Put(c, k, v, max).order == Put(d, k, w, max).order
  {
  }

  // ---------------------------------------------------------------- the cache

  class Cache<K(==), V> {
    const maxEntries: nat
    var items: map<K, V>
    var order: seq<K>

    ghost predicate Valid()
      reads this
    {
      Sound(Contents(), maxEntries)
    }

    ghost function Contents(): Shelf<K, V>
      reads this
    {
      Shelf(items, order)
    }

    constructor (maxEntries: int)
      ensures Valid() && this.maxEntries == Capacity(maxEntries) && Contents() == Shelf(map[], [])
    {
      this.maxEntries := if maxEntries <= 0 then 1 else maxEntries;
      items := map[];
      order := [];
    }

    method Get(k: K) returns (v: Option<V>)
      ensures v == if k in items then Some(items[k]) else None
    {
      v := if k in items then Some(items[k]) else None;
    }

    method Set(k: K, v: V)
      requires Valid()
      modifies this
      ensures Valid() && Contents() == Put(old(Contents()), k, v, maxEntries)
    {
      PutIsSound(Contents(), k, v, maxEntries);
      if k in items {
        items := items[k := v];
        return;
      }
      if |items| >= maxEntries {
        var oldest := order[0];
        order := order[1..];
        items := items - {oldest};
      }
      items := items[k := v];
      order := order + [k];
    }
  }

  // -------------------------------------------------------- runs of operations

  datatype Op<K, V> = Op(key: K, value: V)

  /** The cache after a run of sets. */
  ghost function Run<K, V>(ops: seq<Op<K, V>>, max: nat): Shelf<K, V> {
    if ops == [] then Shelf(map[], [])
    else Put(Run(ops[..|ops| - 1], max), ops[|ops| - 1].key, ops[|ops| - 1].value, max)
  }

  /** The unbounded map the cache stands in for. */
  ghost function Everything<K, V>(ops: seq<Op<K, V>>): map<K, V> {
    if ops == [] then map[] else Everything(ops[..|ops| - 1])[ops[|ops| - 1].key := ops[|ops| - 1].value]
  }

  /** The keys that were not held when they were set, in order. */
  ghost function Insertions<K, V>(ops: seq<Op<K, V>>, max: nat): seq<K> {
    if ops == [] then []
    else
      var before, k := Insertions(ops[..|ops| - 1], max), ops[|ops| - 1].key;
      if k in Run(ops[..|ops| - 1], max).items then before else before + [k]
  }

  ghost function Newest<K>(log: seq<K>, max: nat): seq<K> {
    if |log| <= max then log else log[|log| - max..]
  }

  lemma {:induction false} RunIsSound<K, V>(ops: seq<Op<K, V>>, max: nat)
    requires max >= 1
    ensures Sound(Run(ops, max), max)
  {
    if ops != [] {
      RunIsSound(ops[..|ops| - 1], max);
      PutIsSound(Run(ops[..|ops| - 1], max), ops[|ops| - 1].key, ops[|ops| - 1].value, max);
    }
  }

  /** Whatever is held is held by the unbounded map too, with the same value: a hit is the value last set. */
  lemma {:induction false} HitIsLastSet<K, V>(ops: seq<Op<K, V>>, max: nat, k: K)
    requires k in Run(ops, max).items
    ensures k in Everything(ops) && Run(ops, max).items[k] == Everything(ops)[k]
  {
    if ops != [] {
      var before, op := ops[..|ops| - 1], ops[|ops| - 1];
      if k != op.key {
        HitIsLastSet(before, max, k);
      }
    }
  }

  lemma {:induction false} NewestMore<K>(log: seq<K>, k: K, max: nat)
    requires max >= 1
    ensures Newest(log + [k], max) == (if |log| >= max then Newest(log, max)[1..] else log) + [k]
  {
  }

  /** The keys held are exactly the newest max insertions, oldest first. */
  lemma {:induction false} HoldsNewest<K, V>(ops: seq<Op<K, V>>, max: nat)
    requires max >= 1
    ensures Run(ops, max).order == Newest(Insertions(ops, max), max)
  {
    if ops != [] {
      var before, op := ops[..|ops| - 1], ops[|ops| - 1];
      HoldsNewest(before, max);
      RunIsSound(before, max);
      NewestMore(Insertions(before, max), op.key, max);
    }
  }

  /** With room for every key, the cache is the unbounded map. */
  lemma {:induction false} LargeCacheKeepsAll<K, V>(ops: seq<Op<K, V>>, max: nat)
    requires |Everything(ops)| <= max && max >= 1
    ensures Run(ops, max).items == Everything(ops)
  {
    if ops != [] {
      var before, op := ops[..|ops| - 1], ops[|ops| - 1];
      var m := Everything(before);
      if op.key in m {
        ReplacedSize(m, op.key, op.value);
      } else {
        AddedSize(m, op.key, op.value);
      }
      LargeCacheKeepsAll(before, max);
    }
  }
}
