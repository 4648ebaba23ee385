/**
  The capacity- and time-bounded cache of app/tasks/definitions/ttl_cache. The ordered dictionary is
  a sequence of entries with distinct keys, least recently used first.
*/
module TtlCache {
  import opened Core

  datatype Entry<V> = Entry(key: string, value: V, expires: Time)

  datatype Test = AliveAt(now: Time) | NotKey(key: string)

  predicate Passes<V(!new)>(t: Test, e: Entry<V>) {
    match t
    case AliveAt(now) => e.expires > now
    case NotKey(key) => e.key != key
  }

  function Filter<V(!new)>(items: seq<Entry<V>>, t: Test): (r: seq<Entry<V>>)
    ensures |r| <= |items|
    ensures forall e :: e in r <==> e in items && Passes(t, e)
  {
    if items == [] then []
    else (if Passes(t, items[0]) then [items[0]] else []) + Filter(items[1..], t)
  }

  predicate UniqueKeys<V(!new)>(items: seq<Entry<V>>) {
    forall i, j :: 0 <= i < j < |items| ==> items[i].key != items[j].key
  }

  function Lookup<V(!new)>(items: seq<Entry<V>>, key: string): (r: Option<Entry<V>>)
    ensures r.Some? ==> r.value in items && r.value.key == key
    ensures r.None? ==> forall e :: e in items ==> e.key != key
  {
    if items == [] then None
    else if items[0].key == key then Some(items[0])
    else Lookup(items[1..], key)
  }

  // ----- Operations -----

  datatype Op<V> =
    | Put(key: string, value: V, ttl: real, now: Time)
    | Get(key: string, now: Time)
    | Delete(key: string, now: Time)
    | Size(now: Time)

  datatype Answer<V> = Invalid | Stored | Found(value: V) | Missing | Deleted | NotDeleted | Count(n: nat)

  function AfterPut<V(!new)>(capacity: nat, items: seq<Entry<V>>, e: Entry<V>): seq<Entry<V>> {
    var longer := Filter(items, NotKey(e.key)) + [e];
    if |longer| > capacity then longer[1..] else longer
  }

  function Touched<V(!new)>(items: seq<Entry<V>>, e: Entry<V>): seq<Entry<V>> {
    Filter(items, NotKey(e.key)) + [e]
  }

  function Apply<V(!new)>(capacity: nat, items: seq<Entry<V>>, op: Op<V>): (seq<Entry<V>>, Answer<V>) {
    if op.Put? && op.ttl <= 0.0 then (items, Invalid)
    else
      var live := Filter(items, AliveAt(op.now));
      match op
      case Put(key, value, ttl, now) => (AfterPut(capacity, live, Entry(key, value, now + ttl)), Stored)
      case Get(key, _) =>
        var e := Lookup(live, key);
        if e.Some? then (Touched(live, e.value), Found(e.value.value)) else (live, Missing)
      case Delete(key, _) =>
        (Filter(live, NotKey(key)), if Lookup(live, key).Some? then Deleted else NotDeleted)
      case Size(_) => (live, Count(|live|))
  }

  /** Contents after a trace, and the answer to each operation. */
  function Run<V(!new)>(capacity: nat, ops: seq<Op<V>>): (seq<Entry<V>>, seq<Answer<V>>) {
    if ops == [] then ([], [])
    else
      var (items, answers) := Run(capacity, ops[..|ops| - 1]);
      var (items', answer) := Apply(capacity, items, ops[|ops| - 1]);
      (items', answers + [answer])
  }

  // ----- Sequences of entries -----

  lemma {:induction false} FilterKeepsUnique<V(!new)>(items: seq<Entry<V>>, t: Test)
    requires UniqueKeys(items)
    ensures UniqueKeys(Filter(items, t))
  {
    if items != [] {
      FilterKeepsUnique(items[1..], t);
      var rest := Filter(items[1..], t);
      forall i | 0 <= i < |rest| ensures rest[i].key != items[0].key {
        assert rest[i] in items[1..];
      }
    }
  }

  lemma TouchKeepsUnique<V(!new)>(items: seq<Entry<V>>, e: Entry<V>)
    requires UniqueKeys(items)
    ensures UniqueKeys(Touched(items, e))
  {
    FilterKeepsUnique(items, NotKey(e.key));
    var rest := Filter(items, NotKey(e.key));
    forall i | 0 <= i < |rest| ensures rest[i].key != e.key {
      assert rest[i] in rest;
    }
  }

  lemma {:induction false} RemovingPresent<V(!new)>(items: seq<Entry<V>>, e: Entry<V>)
    requires UniqueKeys(items) && e in items
    ensures |Filter(items, NotKey(e.key))| == |items| - 1
  {
    if items[0] == e {
      KeepsOthers(items[1..], e.key);
    } else {
      RemovingPresent(items[1..], e);
      var i :| 0 < i < |items| && items[i] == e;
    }
  }

  lemma {:induction false} KeepsOthers<V(!new)>(items: seq<Entry<V>>, key: string)
    requires forall e :: e in items ==> e.key != key
    ensures Filter(items, NotKey(key)) == items
  {
    if items != [] {
      assert items[0] in items;
      KeepsOthers(items[1..], key);
    }
  }

  lemma {:induction false} LookupFinds<V(!new)>(items: seq<Entry<V>>, e: Entry<V>)
    requires UniqueKeys(items) && e in items
    ensures Lookup(items, e.key) == Some(e)
  {
    if items[0] != e {
      var i :| 0 < i < |items| && items[i] == e;
      LookupFinds(items[1..], e);
    }
  }

  // ----- A smaller cache inside a larger one -----

  /** `a` is `b` with some entries left out. */
  predicate Sub<V(==,!new)>(a: seq<Entry<V>>, b: seq<Entry<V>>) {
    if a == [] then true
    else if b == [] then false
    else if a[0] == b[0] then Sub(a[1..], b[1..])
    else Sub(a, b[1..])
  }

  lemma {:induction false} SubMembers<V(!new)>(a: seq<Entry<V>>, b: seq<Entry<V>>, e: Entry<V>)
    requires Sub(a, b) && e in a
    ensures e in b
  {
    if a[0] == b[0] {
      if e != a[0] {
        SubMembers(a[1..], b[1..], e);
      }
    } else {
      SubMembers(a, b[1..], e);
    }
  }

  lemma {:induction false} SubAppend<V(!new)>(a: seq<Entry<V>>, b: seq<Entry<V>>, e: Entry<V>)
    requires Sub(a, b)
    ensures Sub(a, b + [e]) && Sub(a + [e], b + [e])
  {
    if b == [] {
      assert a + [e] == [e] && b + [e] == [e];
    } else {
      assert (b + [e])[1..] == b[1..] + [e];
      if a == [] {
        SubAppend(a, b[1..], e);
        assert a + [e] == [e];
        if b[0] == e {
          assert [e][1..] == [];
        }
      } else if a[0] == b[0] {
        assert (a + [e])[1..] == a[1..] + [e];
        SubAppend(a[1..], b[1..], e);
      } else {
        SubAppend(a, b[1..], e);
      }
    }
  }

  lemma {:induction false} SubDropFirst<V(!new)>(a: seq<Entry<V>>, b: seq<Entry<V>>)
    requires Sub(a, b) && a != []
    ensures Sub(a[1..], b) && Sub(a[1..], b[1..])
    decreases |b|
  {
    if a[0] == b[0] {
      SubSkip(a[1..], b[1..], b[0]);
      assert [b[0]] + b[1..] == b;
    } else {
      SubDropFirst(a, b[1..]);
      SubSkip(a[1..], b[1..], b[0]);
      assert [b[0]] + b[1..] == b;
    }
  }

  lemma {:induction false} SubSkip<V(!new)>(a: seq<Entry<V>>, b: seq<Entry<V>>, e: Entry<V>)
    requires Sub(a, b)
    ensures Sub(a, [e] + b)
    decreases |b|
  {
    assert ([e] + b)[1..] == b;
    if a != [] && a[0] == e {
      if a[0] == b[0] {
        SubSkip(a[1..], b[1..], e);
        assert [e] + b[1..] == b;
      } else {
        SubDropFirst(a, b[1..]);
        SubSkip(a[1..], b[1..], b[0]);
        assert [b[0]] + b[1..] == b;
      }
    }
  }

  /** Filtering both removes at least as much from the longer sequence. */
  lemma {:induction false} SubFilter<V(!new)>(a: seq<Entry<V>>, b: seq<Entry<V>>, t: Test)
    requires Sub(a, b)
    ensures Sub(Filter(a, t), Filter(b, t))
    ensures |Filter(b, t)| - |Filter(a, t)| <= |b| - |a|
  {
    if b != [] {
      FilterHead(b, t);
      if a != [] && a[0] == b[0] {
        SubFilter(a[1..], b[1..], t);
        FilterHead(a, t);
        if Passes(t, a[0]) {
          assert ([a[0]] + Filter(a[1..], t))[1..] == Filter(a[1..], t);
          assert ([b[0]] + Filter(b[1..], t))[1..] == Filter(b[1..], t);
        }
      } else {
        SubFilter(a, b[1..], t);
        SubSkip(Filter(a, t), Filter(b[1..], t), b[0]);
      }
    }
  }

  lemma FilterHead<V(!new)>(items: seq<Entry<V>>, t: Test)
    requires items != []
    ensures Filter(items, t) ==
      if Passes(t, items[0]) then [items[0]] + Filter(items[1..], t) else Filter(items[1..], t)
  {
  }

  /**
    The smaller cache holds part of the larger one in the same recency order, and is behind it by at
    most the difference of the capacities: it is full whenever the larger one is.
  */
  predicate Included<V(==,!new)>(c: nat, c': nat, a: seq<Entry<V>>, b: seq<Entry<V>>) {
    && Sub(a, b)
    && UniqueKeys(a) && UniqueKeys(b)
    && |a| <= c && |b| <= c'
    && |b| - |a| <= c' - c
  }

  lemma FilterKeepsIncluded<V(!new)>(c: nat, c': nat, a: seq<Entry<V>>, b: seq<Entry<V>>, t: Test)
    requires Included(c, c', a, b)
    ensures Included(c, c', Filter(a, t), Filter(b, t))
  {
    SubFilter(a, b, t);
    FilterKeepsUnique(a, t);
    FilterKeepsUnique(b, t);
  }

  lemma PutKeepsIncluded<V(!new)>(c: nat, c': nat, a: seq<Entry<V>>, b: seq<Entry<V>>, e: Entry<V>)
    requires 0 < c <= c' && Included(c, c', a, b)
    ensures Included(c, c', AfterPut(c, a, e), AfterPut(c', b, e))
  {
    FilterKeepsIncluded(c, c', a, b, NotKey(e.key));
    SubAppend(Filter(a, NotKey(e.key)), Filter(b, NotKey(e.key)), e);
    TouchKeepsUnique(a, e);
    TouchKeepsUnique(b, e);
    SubDropFirst(Touched(a, e), Touched(b, e));
  }

  /** A hit in the smaller cache is the same hit in the larger; a hit only in the larger is harmless. */
  lemma GetKeepsIncluded<V(!new)>(c: nat, c': nat, a: seq<Entry<V>>, b: seq<Entry<V>>, key: string)
    requires 0 < c <= c' && Included(c, c', a, b)
    ensures var x, y := Lookup(a, key), Lookup(b, key);
      && (x.Some? ==> y == x)
      && Included(c, c', if x.Some? then Touched(a, x.value) else a,
                         if y.Some? then Touched(b, y.value) else b)
  {
    var x, y := Lookup(a, key), Lookup(b, key);
    if x.Some? {
      SubMembers(a, b, x.value);
      LookupFinds(b, x.value);
    }
    if y.Some? {
      FilterKeepsIncluded(c, c', a, b, NotKey(key));
      SubAppend(Filter(a, NotKey(key)), Filter(b, NotKey(key)), y.value);
      TouchKeepsUnique(a, y.value);
      TouchKeepsUnique(b, y.value);
      RemovingPresent(b, y.value);
      if x.Some? {
        RemovingPresent(a, x.value);
      } else {
        KeepsOthers(a, key);
      }
    }
  }

  /** What the answers of the two caches have to do with each other. */
  predicate Agrees<V(==,!new)>(small: Answer<V>, large: Answer<V>) {
    match small
    case Found(_) => large == small
    case Deleted => large == Deleted
    case Count(n) => large.Count? && n <= large.n
    case Missing => large == Missing || large.Found?
    case NotDeleted => large == Deleted || large == NotDeleted
    case Invalid => large == Invalid
    case Stored => large == Stored
  }

  lemma StepKeepsIncluded<V(!new)>(c: nat, c': nat, a: seq<Entry<V>>, b: seq<Entry<V>>, op: Op<V>)
    requires 0 < c <= c' && Included(c, c', a, b)
    ensures Included(c, c', Apply(c, a, op).0, Apply(c', b, op).0)
    ensures Agrees(Apply(c, a, op).1, Apply(c', b, op).1)
  {
    FilterKeepsIncluded(c, c', a, b, AliveAt(op.now));
    var x, y := Filter(a, AliveAt(op.now)), Filter(b, AliveAt(op.now));
    match op
    case Put(key, value, ttl, now) => PutKeepsIncluded(c, c', x, y, Entry(key, value, now + ttl));
    case Get(key, _) => GetKeepsIncluded(c, c', x, y, key);
    case Delete(key, _) =>
      FilterKeepsIncluded(c, c', x, y, NotKey(key));
      GetKeepsIncluded(c, c', x, y, key);
    case Size(_) => SubLength(x, y);
  }

  lemma {:induction false} SubLength<V(!new)>(a: seq<Entry<V>>, b: seq<Entry<V>>)
    requires Sub(a, b)
    ensures |a| <= |b|
  {
    if a != [] {
      if a[0] == b[0] {
        SubLength(a[1..], b[1..]);
      } else {
        SubLength(a, b[1..]);
      }
    }
  }

  /** Over any trace, whatever times it uses, a larger cache contains a smaller one. */
  lemma {:induction false} CacheInclusion<V(!new)>(c: nat, c': nat, ops: seq<Op<V>>)
    requires 0 < c <= c'
    ensures var (a, small) := Run(c, ops);
      var (b, large) := Run(c', ops);
      && Included(c, c', a, b)
      && |small| == |large| == |ops|
      && forall i :: 0 <= i < |ops| ==> Agrees(small[i], large[i])
  {
    if ops != [] {
      var last := |ops| - 1;
      CacheInclusion(c, c', ops[..last]);
      StepKeepsIncluded(c, c', Run(c, ops[..last]).0, Run(c', ops[..last]).0, ops[last]);
    }
  }

  // ----- Hits are fresh -----

  /** What the trace alone says about a key: its last accepted put, unless it was deleted since. */
  function Written<V(!new)>(ops: seq<Op<V>>, key: string): Option<Entry<V>> {
    if ops == [] then None
    else
      var op := ops[|ops| - 1];
      if op.Put? && op.key == key && op.ttl > 0.0 then Some(Entry(key, op.value, op.now + op.ttl))
      else if op.Delete? && op.key == key then None
      else Written(ops[..|ops| - 1], key)
  }

  lemma {:induction false} EntriesAreWritten<V(!new)>(c: nat, ops: seq<Op<V>>)
    requires 0 < c
    ensures forall e :: e in Run(c, ops).0 ==> Written(ops, e.key) == Some(e)
  {
    if ops != [] {
      var last := |ops| - 1;
      EntriesAreWritten(c, ops[..last]);
      var items := Run(c, ops[..last]).0;
      forall e | e in Run(c, ops).0 ensures Written(ops, e.key) == Some(e) {
        var op := ops[last];
        if op.Put? && op.ttl > 0.0 {
          var live := Filter(items, AliveAt(op.now));
          var longer := Filter(live, NotKey(op.key)) + [Entry(op.key, op.value, op.now + op.ttl)];
          assert e in longer;
        }
      }
    }
  }

  /** A hit returns the value last put under the key, not deleted since and not expired. */
  lemma HitsAreFresh<V(!new)>(c: nat, ops: seq<Op<V>>, key: string, now: Time, value: V)
    requires 0 < c && Run(c, ops + [Get(key, now)]).1 == Run(c, ops).1 + [Found(value)]
    ensures var written := Written(ops, key);
      written.Some? && written.value.value == value && now < written.value.expires
  {
    EntriesAreWritten(c, ops);
    var trace := ops + [Get(key, now)];
    assert trace[..|trace| - 1] == ops;
    var answer := Apply(c, Run(c, ops).0, Get(key, now)).1;
    assert Run(c, trace).1 == Run(c, ops).1 + [answer];
    assert (Run(c, ops).1 + [answer])[|Run(c, ops).1|] == Found(value);
  }

  // ----- The cache object -----

  lemma {:induction false} KeepsAll<V(!new)>(items: seq<Entry<V>>, t: Test)
    requires forall e :: e in items ==> Passes(t, e)
    ensures Filter(items, t) == items
  {
    if items != [] {
      assert items[0] in items;
      KeepsAll(items[1..], t);
    }
  }

  /** Deleting an expired key removes nothing that is alive. */
  lemma {:induction false} DeleteExpired<V(!new)>(items: seq<Entry<V>>, key: string, now: Time)
    requires forall e :: e in items && e.key == key ==> e.expires <= now
    ensures Filter(Filter(items, NotKey(key)), AliveAt(now)) == Filter(items, AliveAt(now))
  {
    if items != [] {
      assert items[0] in items;
      DeleteExpired(items[1..], key, now);
      FilterHead(items, AliveAt(now));
      FilterHead(items, NotKey(key));
      if items[0].key != key {
        FilterHead(Filter(items, NotKey(key)), AliveAt(now));
        assert Filter(items, NotKey(key))[1..] == Filter(items[1..], NotKey(key));
      }
    }
  }

  class TTLCache<V(!new)> {
    const capacity: nat
    var items: seq<Entry<V>>

    ghost predicate Valid()
      reads this
    {
      0 < capacity && UniqueKeys(items) && |items| <= capacity
    }

    constructor (capacity: nat)
      requires 0 < capacity
      ensures Valid() && this.capacity == capacity && items == []
    {
      this.capacity := capacity;
      items := [];
    }

    method Purge(now: Time)
      requires Valid()
      modifies this
      ensures Valid() && items == Filter(old(items), AliveAt(now))
    {
      hide Filter, UniqueKeys;
      var expired: seq<string> := [];
      for i := 0 to |items|
        invariant forall k :: 0 <= k < i && items[k].expires <= now ==> items[k].key in expired
        invariant forall key :: key in expired ==>
          exists k :: 0 <= k < i && items[k].key == key && items[k].expires <= now
      {
        if items[i].expires <= now {
          expired := expired + [items[i].key];
        }
      }
      ghost var before := items;
      for n := 0 to |expired|
        invariant Valid() && Filter(items, AliveAt(now)) == Filter(before, AliveAt(now))
        invariant forall e :: e in items ==> e in before
        invariant forall e :: e in items && e.expires <= now ==> e.key in expired[n..]
      {
        var key := expired[n];
        assert key in expired;
        forall e | e in items && e.key == key ensures e.expires <= now {
          SoleHolder(before, key, now, e);
        }
        DeleteExpired(items, key, now);
        FilterKeepsUnique(items, NotKey(key));
        items := Filter(items, NotKey(key));
      }
      AllAlive(items, now);
    }

    /** False stands for the ValueError of a nonpositive ttl. */
    method Put(key: string, value: V, ttl: real, now: Time) returns (ok: bool)
      requires Valid()
      modifies this
      ensures Valid()
      ensures items == Apply(capacity, old(items), Op.Put(key, value, ttl, now)).0
      ensures ok <==> ttl > 0.0
    {
      hide Filter, UniqueKeys, Lookup;
      if ttl <= 0.0 {
        return false;
      }
      Purge(now);
      TouchKeepsUnique(items, Entry(key, value, now + ttl));
      TailKeepsUnique(Touched(items, Entry(key, value, now + ttl)));
      if HasKey(key) {
        items := Filter(items, NotKey(key));
      } else {
        KeepsOthers(items, key);
      }
      items := items + [Entry(key, value, now + ttl)];
      if |items| > capacity {
        items := items[1..];
      }
      ok := true;
    }

    predicate HasKey(key: string)
      reads this
    {
      Lookup(items, key).Some?
    }

    method Get(key: string, now: Time) returns (value: Option<V>)
      requires Valid()
      modifies this
      ensures Valid()
      ensures items == Apply(capacity, old(items), Op.Get(key, now)).0
      ensures value == match Apply(capacity, old(items), Op.Get(key, now)).1
                       case Found(v) => Some(v)
                       case _ => None
    {
      Purge(now);
      var item := Lookup(items, key);
      if item.None? {
        return None;
      }
      TouchKeepsUnique(items, item.value);
      RemovingPresent(items, item.value);
      items := Filter(items, NotKey(key)) + [item.value];
      value := Some(item.value.value);
    }

    method Delete(key: string, now: Time) returns (deleted: bool)
      requires Valid()
      modifies this
      ensures Valid()
      ensures items == Apply(capacity, old(items), Op.Delete(key, now)).0
      ensures deleted <==> Apply(capacity, old(items), Op.Delete(key, now)).1.Deleted?
    {
      Purge(now);
      deleted := Lookup(items, key).Some?;
      FilterKeepsUnique(items, NotKey(key));
      items := Filter(items, NotKey(key));
    }

    method Size(now: Time) returns (size: nat)
      requires Valid()
      modifies this
      ensures Valid()
      ensures items == Apply(capacity, old(items), Op.Size(now)).0 && size == |items|
    {
      Purge(now);
      size := |items|;
    }
  }

  lemma AllAlive<V(!new)>(items: seq<Entry<V>>, now: Time)
    requires forall e :: e in items ==> e.expires > now
    ensures Filter(items, AliveAt(now)) == items
  {
    KeepsAll(items, AliveAt(now));
  }

  lemma TailKeepsUnique<V(!new)>(items: seq<Entry<V>>)
    requires UniqueKeys(items)
    ensures items != [] ==> UniqueKeys(items[1..])
  {
  }

  lemma SoleHolder<V(!new)>(items: seq<Entry<V>>, key: string, now: Time, e: Entry<V>)
    requires UniqueKeys(items) && e in items && e.key == key
    requires exists k :: 0 <= k < |items| && items[k].key == key && items[k].expires <= now
    ensures e.expires <= now
  {
    var k :| 0 <= k < |items| && items[k].key == key && items[k].expires <= now;
    var j :| 0 <= j < |items| && items[j] == e;
    assert j == k;
  }
}
