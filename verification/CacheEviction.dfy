/**
  Exactly which keys the cache of app/tasks/definitions/ttl_cache still holds, said in terms of the
  operations and their answers alone: a key is lost only when, at some moment since its last use,
  as many other live keys as the capacity had been used more recently.
*/
module CacheEviction {
  import opened Core
  import opened TtlCache

  /** The last operation of the trace stored the key or found it. */
  predicate Uses<V(!new)>(c: nat, ops: seq<Op<V>>, key: string)
    requires ops != []
  {
    var op := ops[|ops| - 1];
    var answer := Apply(c, Run(c, ops[..|ops| - 1]).0, op).1;
    (op.Put? && op.key == key && answer.Stored?) || (op.Get? && op.key == key && answer.Found?)
  }

  /** How many operations had happened when the key was last used, counting that one; 0 for never. */
  function LastUse<V(!new)>(c: nat, ops: seq<Op<V>>, key: string): (n: nat)
    ensures n <= |ops|
  {
    if ops == [] then 0
    else if Uses(c, ops, key) then |ops|
    else LastUse(c, ops[..|ops| - 1], key)
  }

  function Clock<V>(ops: seq<Op<V>>): Time {
    if ops == [] then 0.0 else ops[|ops| - 1].now
  }

  predicate Ascending<V>(ops: seq<Op<V>>) {
    forall i, j :: 0 <= i < j < |ops| ==> ops[i].now <= ops[j].now
  }

  predicate Live<V(!new)>(ops: seq<Op<V>>, key: string, at: Time) {
    Written(ops, key).Some? && at < Written(ops, key).value.expires
  }

  function PutKeys<V>(ops: seq<Op<V>>): set<string> {
    set i | 0 <= i < |ops| && ops[i].Put? :: ops[i].key
  }

  /** The live keys that were used more recently. */
  function Rivals<V(!new)>(c: nat, ops: seq<Op<V>>, key: string): set<string> {
    set k | k in PutKeys(ops) && LastUse(c, ops, key) < LastUse(c, ops, k) && Live(ops, k, Clock(ops))
  }

  /** At some moment since its last use the key had as many rivals as the cache has places. */
  predicate Overtaken<V(!new)>(c: nat, ops: seq<Op<V>>, key: string) {
    ops != [] && !Uses(c, ops, key)
    && (Overtaken(c, ops[..|ops| - 1], key) || |Rivals(c, ops, key)| >= c)
  }

  // ----- What the trace says about the stored entries -----

  ghost predicate Has<V(!new)>(items: seq<Entry<V>>, key: string) {
    exists e :: e in items && e.key == key
  }

  /** Least recently used first. */
  predicate ByUse<V(!new)>(c: nat, ops: seq<Op<V>>, items: seq<Entry<V>>) {
    forall i, j :: 0 <= i < j < |items| ==> LastUse(c, ops, items[i].key) < LastUse(c, ops, items[j].key)
  }

  ghost predicate AllWritten<V(!new)>(ops: seq<Op<V>>, items: seq<Entry<V>>) {
    forall e :: e in items ==> Written(ops, e.key) == Some(e)
  }

  /** A live key used after a stored one is stored too. */
  ghost predicate Closed<V(!new)>(c: nat, ops: seq<Op<V>>, items: seq<Entry<V>>) {
    forall e, k :: e in items && Live(ops, k, Clock(ops)) && LastUse(c, ops, e.key) < LastUse(c, ops, k)
      ==> Has(items, k)
  }

  /** The live keys that are not stored are the overtaken ones. */
  ghost predicate Exact<V(!new)>(c: nat, ops: seq<Op<V>>, items: seq<Entry<V>>) {
    && (forall k :: Live(ops, k, Clock(ops)) && !Has(items, k) ==> Overtaken(c, ops, k))
    && (forall k :: Has(items, k) ==> !Overtaken(c, ops, k))
  }

  ghost predicate Shape<V(!new)>(c: nat, ops: seq<Op<V>>, items: seq<Entry<V>>) {
    UniqueKeys(items) && |items| <= c && AllWritten(ops, items) && ByUse(c, ops, items)
  }

  /** What one operation does to the stored keys. */
  ghost predicate Follows<V(!new)>(c: nat, ops: seq<Op<V>>, before: seq<Entry<V>>, after: seq<Entry<V>>)
    requires ops != []
  {
    && (forall k :: Has(after, k) ==> Uses(c, ops, k) || Has(before, k))
    && (forall k :: Live(ops, k, Clock(ops)) && (Uses(c, ops, k) || Has(before, k)) ==>
          || Has(after, k)
          || (|after| == c && forall e :: e in after ==> LastUse(c, ops, k) < LastUse(c, ops, e.key)))
  }

  function Keys<V(!new)>(items: seq<Entry<V>>): (r: set<string>)
    ensures forall k :: k in r <==> Has(items, k)
  {
    set i | 0 <= i < |items| :: items[i].key
  }

  lemma {:induction false} KeysCount<V(!new)>(items: seq<Entry<V>>)
    requires UniqueKeys(items)
    ensures |Keys(items)| == |items|
  {
    if items != [] {
      var front, last := items[..|items| - 1], items[|items| - 1];
      KeysCount(front);
      assert Keys(items) == Keys(front) + {last.key};
      assert last.key !in Keys(front);
    }
  }

  // ----- One operation, seen from the trace -----

  lemma {:induction false} WrittenIsPut<V(!new)>(ops: seq<Op<V>>, key: string)
    requires Written(ops, key).Some?
    ensures key in PutKeys(ops) && Written(ops, key).value.key == key
  {
    var last := |ops| - 1;
    if ops[last].Put? && ops[last].key == key && ops[last].ttl > 0.0 {
      assert key in PutKeys(ops);
    } else {
      WrittenIsPut(ops[..last], key);
      var i :| 0 <= i < last && ops[..last][i].Put? && ops[..last][i].key == key;
      assert ops[i].key == key;
    }
  }

  /** A key that is live now and was not just used was live before. */
  lemma {:induction false} LiveBefore<V(!new)>(c: nat, ops: seq<Op<V>>, key: string)
    requires ops != [] && Ascending(ops) && Live(ops, key, Clock(ops)) && !Uses(c, ops, key)
    ensures Written(ops[..|ops| - 1], key) == Written(ops, key)
    ensures Live(ops[..|ops| - 1], key, Clock(ops[..|ops| - 1]))
  {
    hide Run, Filter, Lookup;
    var front := ops[..|ops| - 1];
    assert Written(front, key) == Written(ops, key);
    assert front != [] ==> Clock(front) == ops[|ops| - 2].now;
  }

  lemma ClosedAfter<V(!new)>(c: nat, ops: seq<Op<V>>, before: seq<Entry<V>>, after: seq<Entry<V>>)
    requires 0 < c && ops != [] && Ascending(ops)
    requires Closed(c, ops[..|ops| - 1], before) && Follows(c, ops, before, after)
    ensures Closed(c, ops, after)
  {
    hide Uses, Live;
    var front := ops[..|ops| - 1];
    forall e, k | e in after && Live(ops, k, Clock(ops)) && LastUse(c, ops, e.key) < LastUse(c, ops, k)
      ensures Has(after, k)
    {
      assert Has(after, e.key);
      if !Uses(c, ops, k) {
        assert !Uses(c, ops, e.key);
        assert Has(before, e.key);
        var b :| b in before && b.key == e.key;
        LiveBefore(c, ops, k);
        assert Has(before, k);
      }
    }
  }

  lemma RivalsStored<V(!new)>(c: nat, ops: seq<Op<V>>, items: seq<Entry<V>>, e: Entry<V>)
    requires Shape(c, ops, items) && Closed(c, ops, items) && e in items
    ensures |Rivals(c, ops, e.key)| < c
  {
    hide LastUse, Live, Written;
    var rivals := Rivals(c, ops, e.key);
    KeysCount(items);
    assert Has(items, e.key);
    assert rivals <= Keys(items) - {e.key};
    Cardinality(rivals, Keys(items) - {e.key});
  }

  lemma Cardinality(a: set<string>, b: set<string>)
    requires a <= b
    ensures |a| <= |b|
  {
    assert b == a + (b - a);
  }

  lemma StoredAreRivals<V(!new)>(c: nat, ops: seq<Op<V>>, items: seq<Entry<V>>, key: string)
    requires Shape(c, ops, items) && |items| == c
    requires forall e :: e in items ==> LastUse(c, ops, key) < LastUse(c, ops, e.key) && Live(ops, e.key, Clock(ops))
    ensures |Rivals(c, ops, key)| >= c
  {
    hide LastUse, Live, Written, PutKeys;
    KeysCount(items);
    forall k | k in Keys(items) ensures k in Rivals(c, ops, key) {
      var e :| e in items && e.key == k;
      StoredIsPut(ops, items, e);
    }
    Cardinality(Keys(items), Rivals(c, ops, key));
  }

  lemma StoredIsPut<V(!new)>(ops: seq<Op<V>>, items: seq<Entry<V>>, e: Entry<V>)
    requires AllWritten(ops, items) && e in items
    ensures e.key in PutKeys(ops)
  {
    WrittenIsPut(ops, e.key);
  }

  lemma ExactAfter<V(!new)>(c: nat, ops: seq<Op<V>>, before: seq<Entry<V>>, after: seq<Entry<V>>)
    requires 0 < c && ops != [] && Ascending(ops)
    requires Exact(c, ops[..|ops| - 1], before) && Follows(c, ops, before, after)
    requires Shape(c, ops, after) && Closed(c, ops, after)
    requires |after| == c ==>
      (forall k :: Live(ops, k, Clock(ops)) && Has(before, k) && !Has(after, k)
        ==> forall e :: e in after ==> Live(ops, e.key, Clock(ops)))
    ensures Exact(c, ops, after)
  {
    hide Uses, Live, LastUse, Written, Rivals, UniqueKeys, ByUse, AllWritten, Shape, Closed;
    var front := ops[..|ops| - 1];
    forall k | Live(ops, k, Clock(ops)) && !Has(after, k) ensures Overtaken(c, ops, k) {
      UsedIsStored(c, ops, before, after, k);
      LiveBefore(c, ops, k);
      if Has(before, k) {
        StoredAreRivals(c, ops, after, k);
      }
    }
    forall k | Has(after, k) ensures !Overtaken(c, ops, k) {
      var e :| e in after && e.key == k;
      RivalsStored(c, ops, after, e);
    }
  }

  lemma UsedIsStored<V(!new)>(c: nat, ops: seq<Op<V>>, before: seq<Entry<V>>, after: seq<Entry<V>>, key: string)
    requires 0 < c && ops != [] && Follows(c, ops, before, after)
    requires Live(ops, key, Clock(ops)) && !Has(after, key)
    ensures !Uses(c, ops, key)
  {
    hide Live, Uses;
    if |after| == c {
      assert after[0] in after;
      assert LastUse(c, ops, after[0].key) <= |ops|;
    }
  }

  // ----- Every operation follows the trace -----

  lemma {:induction false} FilterByUse<V(!new)>(c: nat, ops: seq<Op<V>>, items: seq<Entry<V>>, t: Test)
    requires ByUse(c, ops, items)
    ensures ByUse(c, ops, Filter(items, t))
  {
    hide LastUse, Passes, Filter;
    if items == [] {
      FilterNothing<V>(t);
    } else {
      FilterByUse(c, ops, items[1..], t);
      FilterHead(items, t);
      var rest := Filter(items[1..], t);
      forall i | 0 <= i < |rest| ensures LastUse(c, ops, items[0].key) < LastUse(c, ops, rest[i].key) {
        FilterMember(items[1..], t, rest[i]);
        var j :| 0 <= j < |items[1..]| && items[1..][j] == rest[i];
      }
    }
  }

  lemma FilterNothing<V(!new)>(t: Test)
    ensures Filter<V>([], t) == []
  {
  }

  lemma FilterMember<V(!new)>(items: seq<Entry<V>>, t: Test, e: Entry<V>)
    ensures e in Filter(items, t) <==> e in items && Passes(t, e)
  {
  }

  /** Entries whose keys were not just used keep their order. */
  lemma SameByUse<V(!new)>(c: nat, ops: seq<Op<V>>, rest: seq<Entry<V>>)
    requires ops != [] && ByUse(c, ops[..|ops| - 1], rest)
    requires forall x :: x in rest ==> !Uses(c, ops, x.key)
    ensures ByUse(c, ops, rest)
    ensures forall x :: x in rest ==> LastUse(c, ops, x.key) < |ops|
  {
    hide Uses;
    forall i | 0 <= i < |rest|
      ensures LastUse(c, ops, rest[i].key) == LastUse(c, ops[..|ops| - 1], rest[i].key) < |ops|
    {
      assert rest[i] in rest;
    }
  }

  /** The purge spares what is live according to the trace. */
  lemma PurgeSpares<V(!new)>(c: nat, ops: seq<Op<V>>, before: seq<Entry<V>>, key: string)
    requires ops != [] && Ascending(ops) && AllWritten(ops[..|ops| - 1], before)
    requires Has(before, key) && Live(ops, key, Clock(ops)) && !Uses(c, ops, key)
    ensures Has(Filter(before, AliveAt(Clock(ops))), key)
  {
    hide Uses, Written;
    LiveBefore(c, ops, key);
    var e :| e in before && e.key == key;
    assert e in Filter(before, AliveAt(Clock(ops)));
  }

  lemma HasFiltered<V(!new)>(items: seq<Entry<V>>, t: Test, key: string)
    ensures Has(Filter(items, t), key) ==> Has(items, key)
    ensures t.NotKey? && t.key != key && Has(items, key) ==> Has(Filter(items, t), key)
    ensures t.NotKey? && t.key == key ==> !Has(Filter(items, t), key)
  {
    if t.NotKey? && t.key != key && Has(items, key) {
      var e :| e in items && e.key == key;
      assert e in Filter(items, t);
    }
  }

  /** The stored entries after an operation that uses no key and drops at most one by name. */
  lemma PlainFollows<V(!new)>(c: nat, ops: seq<Op<V>>, before: seq<Entry<V>>, key: string)
    requires ops != [] && Ascending(ops) && AllWritten(ops[..|ops| - 1], before)
    requires ByUse(c, ops[..|ops| - 1], before)
    requires forall k :: !Uses(c, ops, k)
    ensures var live := Filter(before, AliveAt(Clock(ops)));
      && Follows(c, ops, before, live) && ByUse(c, ops, live)
      && (!Live(ops, key, Clock(ops)) ==>
            Follows(c, ops, before, Filter(live, NotKey(key))) && ByUse(c, ops, Filter(live, NotKey(key))))
  {
    hide Uses, Written, Filter, Live, Has, LastUse;
    var front, live := ops[..|ops| - 1], Filter(before, AliveAt(Clock(ops)));
    var rest := Filter(live, NotKey(key));
    FilterByUse(c, front, before, AliveAt(Clock(ops)));
    FilterByUse(c, front, live, NotKey(key));
    SameByUse(c, ops, live);
    SameByUse(c, ops, rest);
    forall k ensures Has(rest, k) ==> Has(live, k)
      ensures Has(live, k) ==> Has(before, k)
      ensures Live(ops, k, Clock(ops)) && Has(before, k) ==> Has(live, k)
      ensures k != key && Has(live, k) ==> Has(rest, k)
    {
      HasFiltered(before, AliveAt(Clock(ops)), k);
      HasFiltered(live, NotKey(key), k);
      if Live(ops, k, Clock(ops)) && Has(before, k) {
        PurgeSpares(c, ops, before, k);
      }
    }
  }

  /** The stored entries after a key was used, with and without an eviction. */
  lemma UseFollows<V(!new)>(c: nat, ops: seq<Op<V>>, before: seq<Entry<V>>, e: Entry<V>)
    requires 0 < c && ops != [] && Ascending(ops) && AllWritten(ops[..|ops| - 1], before)
    requires ByUse(c, ops[..|ops| - 1], before)
    requires forall k :: Uses(c, ops, k) <==> k == e.key
    ensures var longer := Touched(Filter(before, AliveAt(Clock(ops))), e);
      && Follows(c, ops, before, longer) && ByUse(c, ops, longer)
      && (|longer| == c + 1 ==> Follows(c, ops, before, longer[1..]) && ByUse(c, ops, longer[1..]))
  {
    hide Uses, Written, Filter, Live, LastUse;
    var front, live := ops[..|ops| - 1], Filter(before, AliveAt(Clock(ops)));
    var rest := Filter(live, NotKey(e.key));
    var longer := rest + [e];
    FilterByUse(c, front, before, AliveAt(Clock(ops)));
    FilterByUse(c, front, live, NotKey(e.key));
    forall x | x in rest ensures !Uses(c, ops, x.key) {
      assert Has(rest, x.key);
      HasFiltered(live, NotKey(e.key), x.key);
    }
    SameByUse(c, ops, rest);
    JustUsed(c, ops, e.key);
    forall k ensures Has(longer, k) ==> k == e.key || Has(before, k)
      ensures Live(ops, k, Clock(ops)) && (k == e.key || Has(before, k)) ==> Has(longer, k)
    {
      HasFiltered(before, AliveAt(Clock(ops)), k);
      HasFiltered(live, NotKey(e.key), k);
      HasAppended(rest, e, k);
      if Live(ops, k, Clock(ops)) && Has(before, k) && k != e.key {
        PurgeSpares(c, ops, before, k);
      }
    }
    if |longer| == c + 1 {
      EvictionFollows(c, ops, before, longer);
    }
  }

  lemma JustUsed<V(!new)>(c: nat, ops: seq<Op<V>>, key: string)
    requires ops != [] && Uses(c, ops, key)
    ensures LastUse(c, ops, key) == |ops|
  {
  }

  lemma HasAppended<V(!new)>(rest: seq<Entry<V>>, e: Entry<V>, key: string)
    ensures Has(rest + [e], key) <==> Has(rest, key) || key == e.key
  {
    assert (rest + [e])[|rest|] == e;
    if Has(rest, key) {
      var x :| x in rest && x.key == key;
      assert x in rest + [e];
    }
  }

  /** Dropping the first of one entry too many leaves a full cache of more recently used keys. */
  lemma EvictionFollows<V(!new)>(c: nat, ops: seq<Op<V>>, before: seq<Entry<V>>, longer: seq<Entry<V>>)
    requires ops != [] && |longer| == c + 1 && ByUse(c, ops, longer) && Follows(c, ops, before, longer)
    requires forall k :: Live(ops, k, Clock(ops)) && (Uses(c, ops, k) || Has(before, k)) ==> Has(longer, k)
    ensures Follows(c, ops, before, longer[1..]) && ByUse(c, ops, longer[1..])
  {
    hide Uses, LastUse, Live;
    var after := longer[1..];
    assert longer == [longer[0]] + after;
    forall k ensures Has(after, k) ==> Has(longer, k) ensures Has(longer, k) ==> Has(after, k) || k == longer[0].key {
    }
    forall e | e in after ensures LastUse(c, ops, longer[0].key) < LastUse(c, ops, e.key) {
      var i :| 0 <= i < |after| && after[i] == e;
      assert e == longer[i + 1];
    }
  }

  /** The contents after each operation, as the trace describes them. */
  lemma StepFollows<V(!new)>(c: nat, ops: seq<Op<V>>)
    requires 0 < c && ops != [] && Ascending(ops)
    requires Shape(c, ops[..|ops| - 1], Run(c, ops[..|ops| - 1]).0)
    ensures Follows(c, ops, Run(c, ops[..|ops| - 1]).0, Run(c, ops).0)
    ensures ByUse(c, ops, Run(c, ops).0)
  {
    hide Run, Filter, Written, LastUse, Follows, ByUse, AllWritten, UniqueKeys, Lookup;
    var front, op := ops[..|ops| - 1], ops[|ops| - 1];
    var before := Run(c, front).0;
    RunStep(c, ops);
    var live := Filter(before, AliveAt(op.now));
    if op.Put? && op.ttl <= 0.0 {
      InvalidFollows(c, ops);
    } else {
      match op
      case Put(key, value, ttl, now) =>
        var e := Entry(key, value, now + ttl);
        UseFollows(c, ops, before, e);
        TouchedFits(c, before, op.now, e);
      case Get(key, now) =>
        var e := Lookup(live, key);
        if e.Some? {
          LookupKey(live, key);
          UseFollows(c, ops, before, e.value);
        } else {
          PlainFollows(c, ops, before, key);
        }
      case Delete(key, now) =>
        DeletedIsDead(ops);
        PlainFollows(c, ops, before, key);
      case Size(_) => PlainFollows(c, ops, before, "");
    }
  }

  lemma RunStep<V(!new)>(c: nat, ops: seq<Op<V>>)
    requires ops != []
    ensures Run(c, ops).0 == Apply(c, Run(c, ops[..|ops| - 1]).0, ops[|ops| - 1]).0
  {
  }

  lemma LookupKey<V(!new)>(items: seq<Entry<V>>, key: string)
    requires Lookup(items, key).Some?
    ensures Lookup(items, key).value.key == key && Lookup(items, key).value in items
  {
  }

  lemma DeletedIsDead<V(!new)>(ops: seq<Op<V>>)
    requires ops != [] && ops[|ops| - 1].Delete?
    ensures !Live(ops, ops[|ops| - 1].key, Clock(ops))
  {
  }

  lemma TouchedFits<V(!new)>(c: nat, before: seq<Entry<V>>, now: Time, e: Entry<V>)
    requires |before| <= c
    ensures |Touched(Filter(before, AliveAt(now)), e)| <= c + 1
  {
  }

  lemma InvalidFollows<V(!new)>(c: nat, ops: seq<Op<V>>)
    requires ops != [] && ops[|ops| - 1].Put? && ops[|ops| - 1].ttl <= 0.0
    requires ByUse(c, ops[..|ops| - 1], Run(c, ops[..|ops| - 1]).0)
    ensures Follows(c, ops, Run(c, ops[..|ops| - 1]).0, Run(c, ops).0)
    ensures ByUse(c, ops, Run(c, ops).0)
  {
    hide LastUse, Written;
    SameByUse(c, ops, Run(c, ops[..|ops| - 1]).0);
  }

  /** Nothing expired is stored after an accepted operation. */
  lemma StoredAreAlive<V(!new)>(c: nat, ops: seq<Op<V>>)
    requires ops != [] && !(ops[|ops| - 1].Put? && ops[|ops| - 1].ttl <= 0.0)
    ensures forall e :: e in Run(c, ops).0 ==> Clock(ops) < e.expires
  {
    hide Lookup;
    RunStep(c, ops);
    var op := ops[|ops| - 1];
    var live := Filter(Run(c, ops[..|ops| - 1]).0, AliveAt(op.now));
    if op.Get? && Lookup(live, op.key).Some? {
      LookupKey(live, op.key);
    }
    if op.Put? {
      var longer := Touched(live, Entry(op.key, op.value, op.now + op.ttl));
      forall e | e in longer ensures op.now < e.expires {
      }
    }
  }

  /** What is stored after a trace is what the trace says. */
  lemma {:induction false} TraceIsExact<V(!new)>(c: nat, ops: seq<Op<V>>)
    requires 0 < c && Ascending(ops)
    ensures var items := Run(c, ops).0;
      Shape(c, ops, items) && Closed(c, ops, items) && Exact(c, ops, items)
  {
    hide LastUse, Written, ByUse, Follows, Uses, UniqueKeys, Included, Apply, Overtaken;
    var items := Run(c, ops).0;
    CacheInclusion(c, c, ops);
    IncludedFits(c, items);
    EntriesAreWritten(c, ops);
    if ops == [] {
      NothingWritten(c, items);
    } else {
      var front := ops[..|ops| - 1];
      TraceIsExact(c, front);
      StepFollows(c, ops);
      ClosedAfter(c, ops, Run(c, front).0, items);
      AliveOrUnchanged(c, ops);
      ExactAfter(c, ops, Run(c, front).0, items);
    }
  }

  lemma IncludedFits<V(!new)>(c: nat, items: seq<Entry<V>>)
    requires Included(c, c, items, items)
    ensures UniqueKeys(items) && |items| <= c
  {
  }

  lemma NothingWritten<V(!new)>(c: nat, items: seq<Entry<V>>)
    requires items == []
    ensures Closed(c, [], items) && Exact(c, [], items) && ByUse(c, [], items)
  {
  }

  lemma AliveOrUnchanged<V(!new)>(c: nat, ops: seq<Op<V>>)
    requires ops != [] && AllWritten(ops, Run(c, ops).0)
    ensures Run(c, ops).0 == Run(c, ops[..|ops| - 1]).0
      || forall e :: e in Run(c, ops).0 ==> Live(ops, e.key, Clock(ops))
  {
    hide Written, Lookup, Filter;
    var op := ops[|ops| - 1];
    if op.Put? && op.ttl <= 0.0 {
      RunStep(c, ops);
    } else {
      StoredAreAlive(c, ops);
    }
  }

  /** A key would be found at `now` exactly when it is live then and was never overtaken. */
  lemma StoredExactly<V(!new)>(c: nat, ops: seq<Op<V>>, key: string, now: Time)
    requires 0 < c && Ascending(ops) && (ops != [] ==> Clock(ops) <= now)
    ensures var live := Filter(Run(c, ops).0, AliveAt(now));
      && (Has(live, key) <==> Live(ops, key, now) && !Overtaken(c, ops, key))
      && Lookup(live, key) == (if Has(live, key) then Written(ops, key) else None)
  {
    hide LastUse, Written, ByUse, Uses, Run, Overtaken, Lookup, Filter;
    TraceIsExact(c, ops);
    var items := Run(c, ops).0;
    var live := Filter(items, AliveAt(now));
    HasFiltered(items, AliveAt(now), key);
    FilterKeepsUnique(items, AliveAt(now));
    if Has(items, key) {
      var e :| e in items && e.key == key;
      FilterMember(items, AliveAt(now), e);
      if e in live {
        LookupFinds(live, e);
      } else {
        SoleEntry(items, live, e, now);
        AbsentLookup(live, key);
      }
    } else {
      NothingYet(ops, key);
      AbsentLookup(live, key);
    }
  }

  lemma NothingYet<V(!new)>(ops: seq<Op<V>>, key: string)
    ensures ops == [] ==> Written(ops, key).None?
  {
  }

  lemma SoleEntry<V(!new)>(items: seq<Entry<V>>, live: seq<Entry<V>>, e: Entry<V>, now: Time)
    requires UniqueKeys(items) && e in items && live == Filter(items, AliveAt(now)) && e !in live
    ensures !Has(live, e.key)
  {
    hide Filter;
    forall x | x in live ensures x.key != e.key {
      FilterMember(items, AliveAt(now), x);
      var i :| 0 <= i < |items| && items[i] == e;
      var j :| 0 <= j < |items| && items[j] == x;
      assert i != j;
    }
  }

  lemma AbsentLookup<V(!new)>(items: seq<Entry<V>>, key: string)
    requires !Has(items, key)
    ensures Lookup(items, key).None?
  {
  }

  // ----- Theorems -----

  /** The answer of the operation that comes after the trace. */
  function Next<V(!new)>(c: nat, ops: seq<Op<V>>, op: Op<V>): Answer<V> {
    Apply(c, Run(c, ops).0, op).1
  }

  /** A get hits exactly on a live key that was never overtaken, and then returns what was last put. */
  lemma GetIsExact<V(!new)>(c: nat, ops: seq<Op<V>>, key: string, now: Time)
    requires 0 < c && Ascending(ops) && (ops != [] ==> Clock(ops) <= now)
    ensures Next(c, ops, Get(key, now)) ==
      if Live(ops, key, now) && !Overtaken(c, ops, key) then Found(Written(ops, key).value.value) else Missing
  {
    hide Run, Written, Overtaken, Lookup, Filter;
    StoredExactly(c, ops, key, now);
  }

  /** A delete reports exactly those keys. */
  lemma DeleteIsExact<V(!new)>(c: nat, ops: seq<Op<V>>, key: string, now: Time)
    requires 0 < c && Ascending(ops) && (ops != [] ==> Clock(ops) <= now)
    ensures Next(c, ops, Delete(key, now)) ==
      if Live(ops, key, now) && !Overtaken(c, ops, key) then Deleted else NotDeleted
  {
    hide Run, Written, Overtaken, Lookup, Filter;
    StoredExactly(c, ops, key, now);
  }

  function Holding<V(!new)>(c: nat, ops: seq<Op<V>>, now: Time): set<string> {
    set k | k in PutKeys(ops) && Live(ops, k, now) && !Overtaken(c, ops, k)
  }

  /** And the size is their number. */
  lemma SizeIsExact<V(!new)>(c: nat, ops: seq<Op<V>>, now: Time)
    requires 0 < c && Ascending(ops) && (ops != [] ==> Clock(ops) <= now)
    ensures Next(c, ops, Size(now)) == Count(|Holding(c, ops, now)|)
  {
    hide Run, Written, Overtaken, Lookup, Filter, PutKeys, LastUse, ByUse;
    TraceIsExact(c, ops);
    var items := Run(c, ops).0;
    var live := Filter(items, AliveAt(now));
    FilterKeepsUnique(items, AliveAt(now));
    KeysCount(live);
    forall k ensures k in Keys(live) <==> k in Holding(c, ops, now) {
      StoredExactly(c, ops, k, now);
      if Written(ops, k).Some? {
        WrittenIsPut(ops, k);
      }
    }
    assert Keys(live) == Holding(c, ops, now);
  }

  /** It matters that rivals are counted when they were live: they may be gone when the key is asked for. */
  lemma RivalsMayExpire()
    ensures var ops := [Op.Put("a", 7, 10.0, 0.0), Op.Put("b", 8, 1.0, 1.0)];
      && Live(ops, "a", 5.0) && !Live(ops, "b", 5.0)
      && Next(1, ops, Get("a", 5.0)) == Missing
  {
    var first, second := Op.Put("a", 7, 10.0, 0.0), Op.Put("b", 8, 1.0, 1.0);
    var ops := [first, second];
    assert ops[..1] == [first] && [first][..0] == [];
    assert Run(1, [first]).0 == [Entry("a", 7, 10.0)];
    assert Run(1, ops).0 == [Entry("b", 8, 2.0)];
    assert Filter([Entry("b", 8, 2.0)], AliveAt(5.0)) == [];
  }
}
