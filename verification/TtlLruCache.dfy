/**
 The capped map behind the scan cache and the head-hint cache (src/lib/cache.ts:12-60): a time to
 live, a capacity, and eviction of the entry at the front of the insertion order. A read moves its
 entry to the back only when the cache is declared `refreshOnGet`.
 */
module TtlLruCache {
  import opened Common

  type Key = string

  datatype Entry<V> = Entry(key: Key, value: V, expires: int)

  datatype Policy = Policy(ttlMs: int, maxEntries: nat, refreshOnGet: bool)

  datatype Op<V> =
    | Get(key: Key, now: int)
    | Set(key: Key, value: V, now: int)
    | Delete(key: Key)

  // ---- the map in insertion order ----------------------------------------------------------------

  function Find<V>(es: seq<Entry<V>>, key: Key): (at: nat)
    ensures at <= |es|
    ensures at < |es| ==> es[at].key == key
    ensures forall i :: 0 <= i < at ==> es[i].key != key
  {
    if es == [] || es[0].key == key then 0 else 1 + Find(es[1..], key)
  }

  function Removed<V>(es: seq<Entry<V>>, key: Key): seq<Entry<V>> {
    var at := Find(es, key);
    if at < |es| then es[..at] + es[at + 1..] else es
  }

  function AfterGet<V>(p: Policy, es: seq<Entry<V>>, key: Key, now: int): (seq<Entry<V>>, Option<V>) {
    var at := Find(es, key);
    if at == |es| then (es, None)
    else if now > es[at].expires then (Removed(es, key), None)
    else if p.refreshOnGet then (Removed(es, key) + [es[at]], Some(es[at].value))
    else (es, Some(es[at].value))
  }

  function AfterSet<V>(p: Policy, es: seq<Entry<V>>, key: Key, value: V, now: int): seq<Entry<V>> {
    var rest := Removed(es, key);
    (if |rest| >= p.maxEntries && rest != [] then rest[1..] else rest) + [Entry(key, value, now + p.ttlMs)]
  }

  function Step<V>(p: Policy, es: seq<Entry<V>>, op: Op<V>): seq<Entry<V>> {
    match op
    case Get(key, now) => AfterGet(p, es, key, now).0
    case Set(key, value, now) => AfterSet(p, es, key, value, now)
    case Delete(key) => Removed(es, key)
  }

  function Run<V>(p: Policy, es: seq<Entry<V>>, ops: seq<Op<V>>): seq<Entry<V>>
    decreases |ops|
  {
    if ops == [] then es else Run(p, Step(p, es, ops[0]), ops[1..])
  }

  // ---- the reference: a map with no capacity -------------------------------------------------------

  type Unbounded<V> = map<Key, Entry<V>>

  function RefStep<V>(p: Policy, m: Unbounded<V>, op: Op<V>): Unbounded<V> {
    match op
    case Get(_, _) => m
    case Set(key, value, now) => m[key := Entry(key, value, now + p.ttlMs)]
    case Delete(key) => m - {key}
  }

  function RefRun<V>(p: Policy, m: Unbounded<V>, ops: seq<Op<V>>): Unbounded<V>
    decreases |ops|
  {
    if ops == [] then m else RefRun(p, RefStep(p, m, ops[0]), ops[1..])
  }

  function RefGet<V>(m: Unbounded<V>, key: Key, now: int): Option<V> {
    if key in m && now <= m[key].expires then Some(m[key].value) else None
  }

  // ---- refinement ----------------------------------------------------------------------------------

  ghost predicate Distinct<V>(es: seq<Entry<V>>) {
    forall i, j :: 0 <= i < j < |es| ==> es[i].key != es[j].key
  }

  ghost predicate Shows<V>(p: Policy, es: seq<Entry<V>>, m: Unbounded<V>) {
    && Distinct(es)
    && |es| <= (if p.maxEntries >= 1 then p.maxEntries else 1)
    && forall i :: 0 <= i < |es| ==> es[i].key in m && m[es[i].key] == es[i]
  }

  lemma RemovedIs<V>(es: seq<Entry<V>>, key: Key)
    requires Distinct(es)
    ensures Distinct(Removed(es, key))
    ensures |Removed(es, key)| == |es| - (if Find(es, key) < |es| then 1 else 0)
    ensures forall i :: 0 <= i < |Removed(es, key)| ==>
              Removed(es, key)[i].key != key && Removed(es, key)[i] == es[if i < Find(es, key) then i else i + 1]
  {
    hide Find;
    var at := Find(es, key);
    var rest := Removed(es, key);
    if at < |es| {
      assert forall i :: 0 <= i < |rest| ==> rest[i] == es[if i < at then i else i + 1];
    }
  }

  lemma DistinctAppend<V>(es: seq<Entry<V>>, e: Entry<V>)
    requires Distinct(es) && forall i :: 0 <= i < |es| ==> es[i].key != e.key
    ensures Distinct(es + [e])
  {
  }

  lemma StepDistinct<V>(p: Policy, es: seq<Entry<V>>, op: Op<V>)
    requires Distinct(es)
    ensures Distinct(Step(p, es, op))
  {
    RemovedIs(es, op.key);
    hide Removed, Find;
    var rest := Removed(es, op.key);
    match op
    case Get(key, now) =>
      if Find(es, key) < |es| {
        DistinctAppend(rest, es[Find(es, key)]);
      }
    case Set(key, value, now) =>
      var kept := if |rest| >= p.maxEntries && rest != [] then rest[1..] else rest;
      DistinctAppend(kept, Entry(key, value, now + p.ttlMs));
    case Delete(key) =>
  }

  /** Where an entry comes from: it was there, or this write just made it. */
  lemma StepFrom<V>(p: Policy, es: seq<Entry<V>>, op: Op<V>, i: nat)
    requires Distinct(es) && i < |Step(p, es, op)|
    ensures var e := Step(p, es, op)[i];
            if op.Set? && e.key == op.key then e == Entry(op.key, op.value, op.now + p.ttlMs)
            else e in es && (op.Delete? ==> e.key != op.key)
  {
    RemovedIs(es, op.key);
    hide Removed, Find, Distinct;
    var rest := Removed(es, op.key);
    assert forall j :: 0 <= j < |rest| ==> rest[j] in es;
  }

  lemma StepSize<V>(p: Policy, es: seq<Entry<V>>, op: Op<V>)
    requires Distinct(es)
    ensures |Step(p, es, op)| <= |es| || (op.Set? && |Step(p, es, op)| <= (if p.maxEntries >= 1 then p.maxEntries else 1))
  {
    RemovedIs(es, op.key);
    hide Removed, Find, Distinct;
  }

  lemma StepShows<V>(p: Policy, es: seq<Entry<V>>, m: Unbounded<V>, op: Op<V>)
    requires Shows(p, es, m)
    ensures Shows(p, Step(p, es, op), RefStep(p, m, op))
  {
    StepDistinct(p, es, op);
    StepSize(p, es, op);
    hide Step, Distinct;
    var es', m' := Step(p, es, op), RefStep(p, m, op);
    forall i | 0 <= i < |es'|
      ensures es'[i].key in m' && m'[es'[i].key] == es'[i]
    {
      StepFrom(p, es, op, i);
    }
  }

  lemma {:induction false} RunShows<V>(p: Policy, es: seq<Entry<V>>, m: Unbounded<V>, ops: seq<Op<V>>)
    requires Shows(p, es, m)
    ensures Shows(p, Run(p, es, ops), RefRun(p, m, ops))
    decreases |ops|
  {
    if ops != [] {
      StepShows(p, es, m, ops[0]);
      RunShows(p, Step(p, es, ops[0]), RefStep(p, m, ops[0]), ops[1..]);
    }
  }

  /**
   After any run the cache holds at most `maxEntries` entries, and a hit returns what a map without a
   capacity returns: the last value set, unexpired and not since deleted. A miss there is a miss here.
   */
  lemma HitsAreTheLastSet<V>(p: Policy, ops: seq<Op<V>>, key: Key, now: int)
    requires p.maxEntries >= 1
    ensures var es := Run(p, [], ops);
            var hit := AfterGet(p, es, key, now).1;
            && |es| <= p.maxEntries
            && (hit.Some? ==> RefGet(RefRun(p, map[], ops), key, now) == hit)
  {
    RunShows(p, [], map[], ops);
  }

  // ---- retention -----------------------------------------------------------------------------------

  /** Whether `op` moves its key to the back: any write, and under `refreshOnGet` a hit. */
  predicate Touches<V>(p: Policy, es: seq<Entry<V>>, op: Op<V>) {
    op.Set? || (op.Get? && p.refreshOnGet && Find(es, op.key) < |es| && op.now <= es[Find(es, op.key)].expires)
  }

  /** The distinct keys touched, `but` one. */
  function Touched<V>(p: Policy, es: seq<Entry<V>>, ops: seq<Op<V>>, but: Key): set<Key>
    decreases |ops|
  {
    if ops == [] then {}
    else TouchedBy(p, es, ops[0], but) + Touched(p, Step(p, es, ops[0]), ops[1..], but)
  }

  function TouchedBy<V>(p: Policy, es: seq<Entry<V>>, op: Op<V>, but: Key): set<Key> {
    if Touches(p, es, op) && op.key != but then {op.key} else {}
  }

  lemma Regroup(a: set<Key>, b: set<Key>, c: set<Key>)
    ensures a + (b + c) == (a + b) + c
    ensures |a + b| <= |a + (b + c)|
  {
    SubsetSize(a + b, a + (b + c));
  }

  /** `key` is neither written nor deleted, and no read of it comes after it expired. */
  ghost predicate Undisturbed<V>(key: Key, expires: int, ops: seq<Op<V>>) {
    forall op :: op in ops && op.key == key ==> op.Get? && op.now <= expires
  }

  /** Everything behind `key` in the order was touched since `key` was. */
  ghost predicate Behind<V>(es: seq<Entry<V>>, e: Entry<V>, since: set<Key>) {
    exists i :: 0 <= i < |es| && es[i] == e && forall j :: i < j < |es| ==> es[j].key in since
  }

  function Keys<V>(es: seq<Entry<V>>): set<Key> {
    set i | 0 <= i < |es| :: es[i].key
  }

  lemma {:induction false} KeysCount<V>(es: seq<Entry<V>>)
    requires Distinct(es)
    ensures |Keys(es)| == |es|
  {
    if es == [] {
      assert Keys(es) == {};
    } else {
      KeysCount(es[1..]);
      assert Keys(es) == {es[0].key} + Keys(es[1..]);
    }
  }

  /** Leaving out another key keeps the entry, with no more behind it than before. */
  lemma RemovedBehind<V>(es: seq<Entry<V>>, e: Entry<V>, since: set<Key>, key: Key)
    requires Distinct(es) && Behind(es, e, since) && key != e.key
    ensures Behind(Removed(es, key), e, since)
  {
    RemovedIs(es, key);
    hide Removed, Find, Distinct;
    var at := Find(es, key);
    var rest := Removed(es, key);
    var i :| 0 <= i < |es| && es[i] == e && forall j :: i < j < |es| ==> es[j].key in since;
    var i' := if i < at then i else i - 1;
    assert rest[i'] == e && forall j :: i' < j < |rest| ==> rest[j].key in since;
  }

  lemma AppendBehind<V>(es: seq<Entry<V>>, e: Entry<V>, since: set<Key>, x: Entry<V>)
    requires Behind(es, e, since)
    ensures Behind(es + [x], e, since + {x.key})
  {
    var i :| 0 <= i < |es| && es[i] == e && forall j :: i < j < |es| ==> es[j].key in since;
    assert (es + [x])[i] == e;
  }

  /** A full cache evicts the entry only once `maxEntries` other keys stand behind it. */
  lemma EvictBehind<V>(p: Policy, rest: seq<Entry<V>>, e: Entry<V>, since: set<Key>, key: Key)
    requires Distinct(rest) && Behind(rest, e, since)
    requires forall i :: 0 <= i < |rest| ==> rest[i].key != key
    requires |rest| >= p.maxEntries && |since + {key}| < p.maxEntries
    ensures Behind(rest[1..], e, since)
  {
    var i :| 0 <= i < |rest| && rest[i] == e && forall j :: i < j < |rest| ==> rest[j].key in since;
    if i == 0 {
      KeysCount(rest[1..]);
      assert key !in Keys(rest[1..]);
      SubsetSize(Keys(rest[1..]) + {key}, since + {key});
    } else {
      assert rest[1..][i - 1] == e;
    }
  }

  lemma SetKeepsBehind<V>(p: Policy, es: seq<Entry<V>>, e: Entry<V>, since: set<Key>, op: Op<V>)
    requires Distinct(es) && Behind(es, e, since)
    requires op.Set? && op.key != e.key && |since + {op.key}| < p.maxEntries
    ensures Behind(Step(p, es, op), e, since + {op.key})
  {
    var rest := Removed(es, op.key);
    RemovedIs(es, op.key);
    hide Removed, Find, Distinct, Behind;
    RemovedBehind(es, e, since, op.key);
    if |rest| >= p.maxEntries && rest != [] {
      EvictBehind(p, rest, e, since, op.key);
      AppendBehind(rest[1..], e, since, Entry(op.key, op.value, op.now + p.ttlMs));
    } else {
      AppendBehind(rest, e, since, Entry(op.key, op.value, op.now + p.ttlMs));
    }
  }

  lemma BehindFound<V>(es: seq<Entry<V>>, e: Entry<V>, since: set<Key>)
    requires Distinct(es) && Behind(es, e, since)
    ensures Find(es, e.key) < |es| && es[Find(es, e.key)] == e
  {
    hide Find;
    var i :| 0 <= i < |es| && es[i] == e && forall j :: i < j < |es| ==> es[j].key in since;
    assert Find(es, e.key) == i;
  }

  lemma LastIsBehind<V>(es: seq<Entry<V>>, e: Entry<V>, since: set<Key>)
    ensures Behind(es + [e], e, since)
  {
    assert (es + [e])[|es|] == e;
  }

  lemma StepKeepsBehind<V>(p: Policy, es: seq<Entry<V>>, e: Entry<V>, since: set<Key>, op: Op<V>)
    requires Distinct(es) && Behind(es, e, since)
    requires op.key == e.key ==> op.Get? && op.now <= e.expires
    requires |since + TouchedBy(p, es, op, e.key)| < p.maxEntries
    ensures Behind(Step(p, es, op), e, since + TouchedBy(p, es, op, e.key))
  {
    hide Removed, Find, Distinct, Behind;
    var none: set<Key> := {};
    assert since + none == since;
    if op.key == e.key {
      BehindFound(es, e, since);
      LastIsBehind(Removed(es, op.key), e, since);
    } else if op.Set? {
      SetKeepsBehind(p, es, e, since, op);
    } else {
      RemovedBehind(es, e, since, op.key);
      if op.Get? && Find(es, op.key) < |es| {
        AppendBehind(Removed(es, op.key), e, since, es[Find(es, op.key)]);
      }
    }
  }

  lemma {:induction false} RunKeepsBehind<V>(p: Policy, es: seq<Entry<V>>, e: Entry<V>, since: set<Key>, ops: seq<Op<V>>)
    requires Distinct(es) && Behind(es, e, since)
    requires Undisturbed(e.key, e.expires, ops)
    requires |since + Touched(p, es, ops, e.key)| < p.maxEntries
    ensures Behind(Run(p, es, ops), e, since + Touched(p, es, ops, e.key))
    decreases |ops|
  {
    hide Step, TouchedBy, Behind, Distinct;
    if ops == [] {
      assert since + Touched(p, es, ops, e.key) == since;
    } else {
      var now := TouchedBy(p, es, ops[0], e.key);
      var later := Touched(p, Step(p, es, ops[0]), ops[1..], e.key);
      Regroup(since, now, later);
      assert ops[0] in ops;
      StepKeepsBehind(p, es, e, since, ops[0]);
      StepDistinct(p, es, ops[0]);
      RunKeepsBehind(p, Step(p, es, ops[0]), e, since + now, ops[1..]);
    }
  }

  /**
   Least recently used, not merely bounded: an entry that has just been touched and is then neither
   written, deleted nor expired is still there, unchanged, for as long as fewer than `maxEntries`
   distinct other keys are touched, whatever else is read, written or deleted.
   */
  lemma RecentEntriesAreRetained<V>(p: Policy, es: seq<Entry<V>>, ops: seq<Op<V>>)
    requires Distinct(es) && es != []
    requires var e := es[|es| - 1]; Undisturbed(e.key, e.expires, ops) && |Touched(p, es, ops, e.key)| < p.maxEntries
    ensures es[|es| - 1] in Run(p, es, ops)
  {
    var e := es[|es| - 1];
    assert es[|es| - 1] == e;
    assert Behind(es, e, {});
    assert {} + Touched(p, es, ops, e.key) == Touched(p, es, ops, e.key);
    RunKeepsBehind(p, es, e, {}, ops);
  }

  // ---- what a read answers -------------------------------------------------------------------------

  /** A read answers exactly what an unexpired entry of its key holds, and drops an expired one; nothing else goes. */
  lemma ReadAnswersIff<V>(p: Policy, es: seq<Entry<V>>, key: Key, now: int, v: V)
    requires Distinct(es)
    ensures AfterGet(p, es, key, now).1 == Some(v) <==>
      exists i :: 0 <= i < |es| && es[i].key == key && now <= es[i].expires && es[i].value == v
    ensures forall e :: e in AfterGet(p, es, key, now).0 <==> e in es && (e.key == key ==> now <= e.expires)
  {
    hide Removed;
    RemovedIs(es, key);
    var at := Find(es, key);
    var rest := Removed(es, key);
    forall e
      ensures e in AfterGet(p, es, key, now).0 <==> e in es && (e.key == key ==> now <= e.expires)
    {
      if e in es {
        var i :| 0 <= i < |es| && es[i] == e;
        assert i != at ==> rest[if i < at then i else i - 1] == e;
      }
    }
  }

  /** The entry a write makes is the last one, and the cache stays one entry a key. */
  lemma SetIsLast<V>(p: Policy, es: seq<Entry<V>>, key: Key, value: V, at: int)
    requires Distinct(es)
    ensures
      var after := AfterSet(p, es, key, value, at);
      Distinct(after) && after != [] && after[|after| - 1] == Entry(key, value, at + p.ttlMs)
  {
    StepDistinct(p, es, Set(key, value, at));
  }

  lemma {:induction false} RunDistinct<V>(p: Policy, es: seq<Entry<V>>, ops: seq<Op<V>>)
    requires Distinct(es)
    ensures Distinct(Run(p, es, ops))
    decreases |ops|
  {
    if ops != [] {
      StepDistinct(p, es, ops[0]);
      RunDistinct(p, Step(p, es, ops[0]), ops[1..]);
    }
  }

  /**
   The cache is worth having: after any run and a write, and any run on top in which the key is neither
   written nor deleted, nor read past its expiry, a read by the expiry answers the value written as long as
   fewer than `maxEntries` distinct other keys were touched.
   */
  lemma WrittenIsRead<V>(p: Policy, before: seq<Op<V>>, key: Key, value: V, at: int, ops: seq<Op<V>>, now: int)
    requires now <= at + p.ttlMs && Undisturbed(key, at + p.ttlMs, ops)
    requires |Touched(p, AfterSet(p, Run(p, [], before), key, value, at), ops, key)| < p.maxEntries
    ensures AfterGet(p, Run(p, AfterSet(p, Run(p, [], before), key, value, at), ops), key, now).1 == Some(value)
  {
    hide AfterSet, AfterGet, Run, Touched, Undisturbed;
    EmptyDistinct<V>();
    RunDistinct(p, [], before);
    var es := AfterSet(p, Run(p, [], before), key, value, at);
    SetIsLast(p, Run(p, [], before), key, value, at);
    RecentEntriesAreRetained(p, es, ops);
    RunDistinct(p, es, ops);
    var i :| 0 <= i < |Run(p, es, ops)| && Run(p, es, ops)[i] == es[|es| - 1];
    ReadAnswersIff(p, Run(p, es, ops), key, now, value);
  }

  lemma EmptyDistinct<V>()
    ensures Distinct<V>([])
  {
  }

  /** A touch is what puts an entry last. */
  lemma TouchPutsLast<V>(p: Policy, es: seq<Entry<V>>, op: Op<V>)
    requires Touches(p, es, op)
    ensures var es' := Step(p, es, op); es' != [] && es'[|es'| - 1].key == op.key
  {
  }

  // ---- the cache, updated in place -----------------------------------------------------------------

  class Cache<V> {
    const policy: Policy
    var entries: seq<Entry<V>>

    constructor (ttlMs: int, maxEntries: nat, refreshOnGet: bool)
      ensures entries == [] && policy == Policy(ttlMs, maxEntries, refreshOnGet)
    {
      policy := Policy(ttlMs, maxEntries, refreshOnGet);
      entries := [];
    }

    method Drop(key: Key)
      modifies this
      ensures entries == Removed(old(entries), key)
    {
      var at := 0;
      while at < |entries| && entries[at].key != key
        invariant 0 <= at <= |entries|
        invariant forall i :: 0 <= i < at ==> entries[i].key != key
      {
        at := at + 1;
      }
      FindIs(entries, key, at);
      if at < |entries| {
        entries := entries[..at] + entries[at + 1..];
      }
    }

    method Read(key: Key, now: int) returns (r: Option<V>)
      modifies this
      ensures (entries, r) == AfterGet(policy, old(entries), key, now)
    {
      var at := Find(entries, key);
      if at == |entries| {
        return None;
      }
      var e := entries[at];
      if now > e.expires {
        Drop(key);
        return None;
      }
      if policy.refreshOnGet {
        Drop(key);
        entries := entries + [e];
      }
      return Some(e.value);
    }

    method Write(key: Key, value: V, now: int)
      modifies this
      ensures entries == AfterSet(policy, old(entries), key, value, now)
    {
      Drop(key);
      if |entries| >= policy.maxEntries {
        if entries != [] {
          entries := entries[1..];
        }
      }
      entries := entries + [Entry(key, value, now + policy.ttlMs)];
    }
  }

  lemma {:induction false} FindIs<V>(es: seq<Entry<V>>, key: Key, at: nat)
    requires at <= |es| && (forall i :: 0 <= i < at ==> es[i].key != key)
    requires at == |es| || es[at].key == key
    ensures Find(es, key) == at
  {
    if at > 0 {
      FindIs(es[1..], key, at - 1);
    }
  }
}
