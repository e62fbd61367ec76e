/**
 The in-process rate limiter (src/lib/rate-limit-window.ts): one sliding window per key in an
 insertion-ordered map, and a bounded reaper that walks the map with a live iterator kept across
 ticks.

 A JavaScript Map is modelled as ECMA-262 section 24.1 specifies it: a list of records in which a
 deleted record is emptied but stays in place, a new key is appended, and an iterator is an index
 into that list. Every clock read of a call is a parameter of its own.
 */
module RateLimitWindow {
  import opened Common
  import opened SlidingWindow

  type Key = string

  datatype Slot = Held(key: Key, hits: seq<int>) | Gone

  datatype Stats = Stats(sweeps: nat, scanned: nat, evicted: nat, passes: nat, lastSweepAt: int, peakKeys: nat)

  datatype State = State(slots: seq<Slot>, cursor: Option<nat>, lastSweepAt: int, maxWindowMs: int, stats: Stats)

  const SWEEP_INTERVAL_MS := 10_000
  const SWEEP_INTERVAL_PRESSURE_MS := 1_000
  const SWEEP_BUDGET: nat := 256
  const SWEEP_BUDGET_PRESSURE: nat := 4_096
  const KEY_PRESSURE_MARK: nat := 10_000

  const INITIAL := State([], None, 0, 0, Stats(0, 0, 0, 0, 0, 0))

  // ---- the insertion-ordered map ---------------------------------------------------------------

  /** Where `key` lives, or `|slots|`. */
  function Find(slots: seq<Slot>, key: Key): (at: nat)
    ensures at <= |slots|
    ensures at < |slots| ==> slots[at].Held? && slots[at].key == key
    ensures forall i :: 0 <= i < at ==> !(slots[i].Held? && slots[i].key == key)
  {
    if slots == [] || (slots[0].Held? && slots[0].key == key) then 0 else 1 + Find(slots[1..], key)
  }

  predicate Has(slots: seq<Slot>, key: Key) {
    Find(slots, key) < |slots|
  }

  /** `windows.get(key) ?? []` */
  function Hits(slots: seq<Slot>, key: Key): seq<int> {
    var at := Find(slots, key);
    if at < |slots| then slots[at].hits else []
  }

  function Put(slots: seq<Slot>, key: Key, hits: seq<int>): seq<Slot> {
    var at := Find(slots, key);
    if at < |slots| then slots[at := Held(key, hits)] else slots + [Held(key, hits)]
  }

  function Drop(slots: seq<Slot>, key: Key): seq<Slot> {
    var at := Find(slots, key);
    if at < |slots| then slots[at := Gone] else slots
  }

  function Size(slots: seq<Slot>): (n: nat)
    ensures n <= |slots|
  {
    if slots == [] then 0 else (if slots[0].Held? then 1 else 0) + Size(slots[1..])
  }

  /** The first record at or after `from` that is not emptied, or `|slots|`. */
  function NextHeld(slots: seq<Slot>, from: nat): (at: nat)
    requires from <= |slots|
    ensures from <= at <= |slots|
    ensures at < |slots| ==> slots[at].Held?
    ensures forall i :: from <= i < at ==> slots[i].Gone?
    decreases |slots| - from
  {
    if from == |slots| || slots[from].Held? then from else NextHeld(slots, from + 1)
  }

  ghost predicate Distinct(slots: seq<Slot>) {
    forall i, j :: 0 <= i < j < |slots| && slots[i].Held? && slots[j].Held? ==> slots[i].key != slots[j].key
  }

  lemma FindIs(slots: seq<Slot>, at: nat)
    requires Distinct(slots) && at < |slots| && slots[at].Held?
    ensures Find(slots, slots[at].key) == at
  {
  }

  lemma PutHits(slots: seq<Slot>, key: Key, hits: seq<int>)
    requires Distinct(slots)
    ensures Distinct(Put(slots, key, hits))
    ensures Hits(Put(slots, key, hits), key) == hits
    ensures forall k :: k != key ==> Hits(Put(slots, key, hits), k) == Hits(slots, k)
    ensures forall k :: Has(Put(slots, key, hits), k) <==> k == key || Has(slots, k)
  {
    var after := Put(slots, key, hits);
    var at := Find(slots, key);
    assert after[at] == Held(key, hits);
    FindIs(after, at);
    forall k | k != key
      ensures Hits(after, k) == Hits(slots, k) && (Has(after, k) <==> Has(slots, k))
    {
      var was := Find(slots, k);
      if was < |slots| {
        assert after[was] == slots[was];
        FindIs(after, was);
      } else {
        assert forall i :: 0 <= i < |slots| && i != at ==> after[i] == slots[i];
      }
    }
  }

  lemma DropHits(slots: seq<Slot>, key: Key)
    requires Distinct(slots)
    ensures Distinct(Drop(slots, key))
    ensures Hits(Drop(slots, key), key) == [] && !Has(Drop(slots, key), key)
    ensures forall k :: k != key ==> Hits(Drop(slots, key), k) == Hits(slots, k)
    ensures forall k :: Has(Drop(slots, key), k) <==> k != key && Has(slots, k)
  {
    var after := Drop(slots, key);
    var at := Find(slots, key);
    assert forall i :: 0 <= i < |slots| && i != at ==> after[i] == slots[i];
    forall k | k != key
      ensures Hits(after, k) == Hits(slots, k) && (Has(after, k) <==> Has(slots, k))
    {
      var was := Find(slots, k);
      if was < |slots| {
        assert after[was] == slots[was];
        FindIs(after, was);
      } else {
        assert forall i :: 0 <= i < |slots| && i != at ==> after[i] == slots[i];
      }
    }
  }

  // ---- the reaper ------------------------------------------------------------------------------

  /** The newest hit is its array's last element; an empty array counts as dead. */
  predicate IsDead(hits: seq<int>, deadBefore: int) {
    hits == [] || hits[|hits| - 1] <= deadBefore
  }

  ghost predicate CursorOk(s: State) {
    s.cursor.Some? ==> s.cursor.value <= |s.slots|
  }

  /** Up to `budget` steps of the live iterator; a finished pass clears the cursor and ends the tick. */
  function Reap(s: State, deadBefore: int, budget: nat): (r: State)
    requires s.cursor.Some? && CursorOk(s)
    ensures CursorOk(r)
    decreases |s.slots|, budget
  {
    if budget == 0 then s
    else
      var at := NextHeld(s.slots, s.cursor.value);
      if at == |s.slots| then s.(cursor := None, stats := s.stats.(passes := s.stats.passes + 1))
      else Reap(Inspect(s, at, deadBefore), deadBefore, budget - 1)
  }

  /** One inspected entry: counted, and evicted when dead. */
  function Inspect(s: State, at: nat, deadBefore: int): State
    requires at < |s.slots| && s.slots[at].Held?
  {
    var seen := s.(cursor := Some(at + 1), stats := s.stats.(scanned := s.stats.scanned + 1));
    if IsDead(s.slots[at].hits, deadBefore) then Evict(seen, at) else seen
  }

  lemma ReapUnfolds(s: State, deadBefore: int, budget: nat)
    requires s.cursor.Some? && CursorOk(s)
    ensures budget == 0 ==> Reap(s, deadBefore, budget) == s
    ensures var at := NextHeld(s.slots, s.cursor.value);
            budget > 0 ==>
              Reap(s, deadBefore, budget) ==
              if at == |s.slots| then s.(cursor := None, stats := s.stats.(passes := s.stats.passes + 1))
              else Reap(Inspect(s, at, deadBefore), deadBefore, budget - 1)
  {
  }

  function Evict(s: State, at: nat): State
    requires at < |s.slots|
  {
    s.(slots := s.slots[at := Gone], stats := s.stats.(evicted := s.stats.evicted + 1))
  }

  function SweepBudget(slots: seq<Slot>): nat {
    if Size(slots) > KEY_PRESSURE_MARK then SWEEP_BUDGET_PRESSURE else SWEEP_BUDGET
  }

  function SweepInterval(slots: seq<Slot>): int {
    if Size(slots) > KEY_PRESSURE_MARK then SWEEP_INTERVAL_PRESSURE_MS else SWEEP_INTERVAL_MS
  }

  function SweepStart(s: State, now: int): (r: State)
    requires CursorOk(s)
    ensures CursorOk(r) && r.cursor.Some?
  {
    s.(lastSweepAt := now, stats := s.stats.(sweeps := s.stats.sweeps + 1, lastSweepAt := now),
       cursor := if s.cursor.Some? then s.cursor else Some(0))
  }

  function Swept(s: State, now: int): (r: State)
    requires CursorOk(s)
    ensures CursorOk(r)
  {
    Reap(SweepStart(s, now), now - s.maxWindowMs, SweepBudget(s.slots))
  }

  function MaybeSwept(s: State, now: int): (r: State)
    requires CursorOk(s)
    ensures CursorOk(r)
  {
    var peaked := if Size(s.slots) > s.stats.peakKeys then s.(stats := s.stats.(peakKeys := Size(s.slots))) else s;
    if now - s.lastSweepAt >= SweepInterval(s.slots) then Swept(peaked, now) else peaked
  }

  // ---- checks, hits, reservations, releases ------------------------------------------------------

  datatype Verdict = Ok | Wait(retryAfterSec: int)

  function RetryAfter(recent: seq<int>, windowMs: int, now: int): int {
    if recent != [] then Max(1, CeilSeconds(recent[0] + windowMs - now)) else 1
  }

  function Judge(recent: seq<int>, limit: nat, windowMs: int, now: int): Verdict {
    if |recent| >= limit then Wait(RetryAfter(recent, windowMs, now)) else Ok
  }

  function Learned(s: State, windowMs: int, now: int): (r: State)
    requires CursorOk(s)
    ensures CursorOk(r)
  {
    MaybeSwept(s.(maxWindowMs := Max(s.maxWindowMs, windowMs)), now)
  }

  function Checked(s: State, key: Key, limit: nat, windowMs: int, now: int): (r: (State, Verdict))
    requires CursorOk(s)
    ensures CursorOk(r.0)
  {
    var ready := Learned(s, windowMs, now);
    var recent := Live(Hits(ready.slots, key), now - windowMs);
    var keep := |recent| >= limit || recent != [];
    (ready.(slots := if keep then Put(ready.slots, key, recent) else Drop(ready.slots, key)),
     Judge(recent, limit, windowMs, now))
  }

  function Recorded(s: State, key: Key, windowMs: int, at: int): State {
    s.(slots := Put(s.slots, key, Live(Hits(s.slots, key), at - windowMs) + [at]))
  }

  function Pushed(s: State, key: Key, at: int): State {
    s.(slots := Put(s.slots, key, Hits(s.slots, key) + [at]))
  }

  function Released(s: State, key: Key, token: int): State {
    var hits := Hits(s.slots, key);
    if !Has(s.slots, key) || token !in hits then s
    else
      var rest := Without(hits, token);
      s.(slots := if rest != [] then Put(s.slots, key, rest) else Drop(s.slots, key))
  }

  function AfterHit(s: State, key: Key, limit: nat, windowMs: int, now: int, at: int): (r: (State, Verdict))
    requires CursorOk(s)
    ensures CursorOk(r.0)
  {
    var (after, v) := Checked(s, key, limit, windowMs, now);
    (if v.Ok? then Recorded(after, key, windowMs, at) else after, v)
  }

  function AfterReserve(s: State, key: Key, limit: nat, windowMs: int, now: int, at: int): (r: (State, Verdict))
    requires CursorOk(s)
    ensures CursorOk(r.0)
  {
    var (after, v) := Checked(s, key, limit, windowMs, now);
    (if v.Ok? then Pushed(after, key, at) else after, v)
  }

  // ---- runs ------------------------------------------------------------------------------------

  /** The budget a key belongs to. It never changes for a key. */
  datatype Config = Config(limit: nat, windowMs: int)

  /** One call, with the instants its clock reads return. */
  datatype Op =
    | Check(key: Key, now: int)
    | Hit(key: Key, now: int, at: int)
    | Reserve(key: Key, now: int, at: int)
    | Release(key: Key, token: int, now: int)

  function Start(op: Op): int { op.now }

  function End(op: Op): int {
    match op
    case Hit(_, _, at) => at
    case Reserve(_, _, at) => at
    case _ => op.now
  }

  function Step(conf: Key -> Config, s: State, op: Op): (r: (State, Verdict))
    requires CursorOk(s)
    ensures CursorOk(r.0)
  {
    var Config(limit, windowMs) := conf(op.key);
    match op
    case Check(key, now) => Checked(s, key, limit, windowMs, now)
    case Hit(key, now, at) => AfterHit(s, key, limit, windowMs, now, at)
    case Reserve(key, now, at) => AfterReserve(s, key, limit, windowMs, now, at)
    case Release(key, token, _) => (Released(s, key, token), Ok)
  }

  ghost predicate Clocked(ops: seq<Op>, from: int) {
    ops != [] ==> from <= Start(ops[0]) <= End(ops[0]) && Clocked(ops[1..], End(ops[0]))
  }

  function Run(conf: Key -> Config, s: State, ops: seq<Op>): (r: (State, seq<Verdict>))
    requires CursorOk(s)
    ensures CursorOk(r.0)
    decreases |ops|
  {
    if ops == [] then (s, [])
    else
      var (mid, v) := Step(conf, s, ops[0]);
      var (end, vs) := Run(conf, mid, ops[1..]);
      (end, [v] + vs)
  }

  // ---- the reference: a limiter that forgets nothing ---------------------------------------------

  /** Every admitted hit that was not released, per key: no map order, no trimming, no reaper. */
  type Ledger = map<Key, seq<int>>

  function Entries(l: Ledger, key: Key): seq<int> {
    if key in l then l[key] else []
  }

  function LedgerStep(conf: Key -> Config, l: Ledger, op: Op): (Ledger, Verdict) {
    var Config(limit, windowMs) := conf(op.key);
    var entries := Entries(l, op.key);
    var verdict := Judge(Live(entries, op.now - windowMs), limit, windowMs, op.now);
    match op
    case Check(_, _) => (l, verdict)
    case Hit(key, _, at) => (if verdict.Ok? then l[key := entries + [at]] else l, verdict)
    case Reserve(key, _, at) => (if verdict.Ok? then l[key := entries + [at]] else l, verdict)
    case Release(key, token, _) => (l[key := Without(entries, token)], Ok)
  }

  function LedgerRun(conf: Key -> Config, l: Ledger, ops: seq<Op>): (Ledger, seq<Verdict>)
    decreases |ops|
  {
    if ops == [] then (l, [])
    else
      var (mid, v) := LedgerStep(conf, l, ops[0]);
      var (end, vs) := LedgerRun(conf, mid, ops[1..]);
      (end, [v] + vs)
  }

  // ---- eviction is invisible ---------------------------------------------------------------------

  /** What a reaper tick may do to a key: nothing, or forget it when every hit is at most `deadBefore`. */
  ghost predicate OnlyDeadGone(before: seq<Slot>, after: seq<Slot>, deadBefore: int) {
    && Distinct(after)
    && (forall k :: Has(after, k) ==> Has(before, k))
    && (forall k :: Hits(after, k) == Hits(before, k)
                    || (Hits(after, k) == [] && IsDead(Hits(before, k), deadBefore)))
  }

  /** A key is dead exactly when none of its hits is live. */
  lemma DeadMeansNothingLive(hits: seq<int>, deadBefore: int)
    requires Sorted(hits)
    ensures IsDead(hits, deadBefore) <==> Live(hits, deadBefore) == []
  {
    var dead := LiveIsSuffix(hits, deadBefore);
  }

  lemma EvictForgetsOne(s: State, at: nat, deadBefore: int)
    requires Distinct(s.slots) && at < |s.slots| && s.slots[at].Held?
    requires IsDead(s.slots[at].hits, deadBefore)
    ensures OnlyDeadGone(s.slots, Evict(s, at).slots, deadBefore)
  {
    FindIs(s.slots, at);
    assert Evict(s, at).slots == Drop(s.slots, s.slots[at].key);
    DropHits(s.slots, s.slots[at].key);
  }

  lemma OnlyDeadGoneTwice(a: seq<Slot>, b: seq<Slot>, c: seq<Slot>, deadBefore: int)
    requires OnlyDeadGone(a, b, deadBefore) && OnlyDeadGone(b, c, deadBefore)
    ensures OnlyDeadGone(a, c, deadBefore)
  {
    hide Distinct, Has, Hits, IsDead;
  }

  lemma OnlyDeadGoneDistinct(a: seq<Slot>, b: seq<Slot>, deadBefore: int)
    requires OnlyDeadGone(a, b, deadBefore)
    ensures Distinct(b)
  {
  }

  lemma OnlyDeadGoneSelf(a: seq<Slot>, deadBefore: int)
    requires Distinct(a)
    ensures OnlyDeadGone(a, a, deadBefore)
  {
  }

  lemma {:induction false} ReapForgetsOnlyDead(s: State, deadBefore: int, budget: nat)
    requires s.cursor.Some? && CursorOk(s) && Distinct(s.slots)
    ensures OnlyDeadGone(s.slots, Reap(s, deadBefore, budget).slots, deadBefore)
    ensures Reap(s, deadBefore, budget).maxWindowMs == s.maxWindowMs
    decreases budget
  {
    hide OnlyDeadGone, Distinct, IsDead, Reap;
    OnlyDeadGoneSelf(s.slots, deadBefore);
    ReapUnfolds(s, deadBefore, budget);
    if budget != 0 {
      var at := NextHeld(s.slots, s.cursor.value);
      if at < |s.slots| {
        var seen := s.(cursor := Some(at + 1), stats := s.stats.(scanned := s.stats.scanned + 1));
        if IsDead(s.slots[at].hits, deadBefore) {
          EvictForgetsOne(seen, at, deadBefore);
          OnlyDeadGoneDistinct(s.slots, Evict(seen, at).slots, deadBefore);
          ReapForgetsOnlyDead(Evict(seen, at), deadBefore, budget - 1);
          OnlyDeadGoneTwice(s.slots, Evict(seen, at).slots, Reap(s, deadBefore, budget).slots, deadBefore);
        } else {
          ReapForgetsOnlyDead(seen, deadBefore, budget - 1);
        }
      }
    }
  }

  lemma SweptForgetsOnlyDead(s: State, now: int)
    requires CursorOk(s) && Distinct(s.slots)
    ensures OnlyDeadGone(s.slots, Swept(s, now).slots, now - s.maxWindowMs)
    ensures Swept(s, now).maxWindowMs == s.maxWindowMs
  {
    ReapForgetsOnlyDead(SweepStart(s, now), now - s.maxWindowMs, SweepBudget(s.slots));
  }

  lemma MaybeSweptForgetsOnlyDead(s: State, now: int)
    requires CursorOk(s) && Distinct(s.slots)
    ensures OnlyDeadGone(s.slots, MaybeSwept(s, now).slots, now - s.maxWindowMs)
    ensures MaybeSwept(s, now).maxWindowMs == s.maxWindowMs
  {
    var peaked := if Size(s.slots) > s.stats.peakKeys then s.(stats := s.stats.(peakKeys := Size(s.slots))) else s;
    if now - s.lastSweepAt >= SweepInterval(s.slots) {
      assert MaybeSwept(s, now) == Swept(peaked, now);
      SweptForgetsOnlyDead(peaked, now);
    }
  }

  lemma LearnedForgetsOnlyDead(s: State, windowMs: int, now: int)
    requires CursorOk(s) && Distinct(s.slots)
    ensures Learned(s, windowMs, now).maxWindowMs == Max(s.maxWindowMs, windowMs)
    ensures OnlyDeadGone(s.slots, Learned(s, windowMs, now).slots, now - Max(s.maxWindowMs, windowMs))
  {
    MaybeSweptForgetsOnlyDead(s.(maxWindowMs := Max(s.maxWindowMs, windowMs)), now);
  }

  // ---- the reaper refines no reaper --------------------------------------------------------------

  /** One key's array against one key's ledger entries at instant `clock`. */
  ghost predicate Agree(hits: seq<int>, entries: seq<int>, windowMs: int, clock: int) {
    && Sorted(hits)
    && (forall t :: t in hits ==> t <= clock)
    && Live(hits, clock - windowMs) == Live(entries, clock - windowMs)
  }

  ghost predicate Tracks(conf: Key -> Config, s: State, l: Ledger, clock: int) {
    && CursorOk(s)
    && Distinct(s.slots)
    && (forall k :: Has(s.slots, k) ==> conf(k).windowMs <= s.maxWindowMs)
    && (forall k :: Agree(Hits(s.slots, k), Entries(l, k), conf(k).windowMs, clock))
  }

  lemma AgreeLater(hits: seq<int>, entries: seq<int>, windowMs: int, early: int, late: int)
    requires Agree(hits, entries, windowMs, early) && early <= late
    ensures Agree(hits, entries, windowMs, late)
  {
    LiveTwice(hits, early - windowMs, late - windowMs);
    LiveTwice(entries, early - windowMs, late - windowMs);
  }

  lemma AgreeTrimmed(hits: seq<int>, entries: seq<int>, windowMs: int, clock: int)
    requires Agree(hits, entries, windowMs, clock)
    ensures Agree(Live(hits, clock - windowMs), entries, windowMs, clock)
  {
    hide Live;
    LiveTwice(hits, clock - windowMs, clock - windowMs);
    var dead := LiveIsSuffix(hits, clock - windowMs);
    assert forall i :: dead <= i < |hits| ==> hits[i] in hits;
  }

  lemma AgreePushed(hits: seq<int>, entries: seq<int>, windowMs: int, clock: int)
    requires Agree(hits, entries, windowMs, clock)
    ensures Agree(hits + [clock], entries + [clock], windowMs, clock)
  {
    LiveAppend(hits, [clock], clock - windowMs);
    LiveAppend(entries, [clock], clock - windowMs);
    assert forall i :: 0 <= i < |hits| ==> hits[i] in hits;
  }

  lemma AgreeReleased(hits: seq<int>, entries: seq<int>, windowMs: int, clock: int, token: int)
    requires Agree(hits, entries, windowMs, clock)
    ensures Agree(Without(hits, token), Without(entries, token), windowMs, clock)
  {
    hide Live, Without;
    LiveWithout(hits, token, clock - windowMs);
    LiveWithout(entries, token, clock - windowMs);
    WithoutKeeps(hits, token, |hits|, 0);
  }

  lemma TracksKey(conf: Key -> Config, s: State, l: Ledger, clock: int, key: Key)
    requires Tracks(conf, s, l, clock)
    ensures CursorOk(s) && Agree(Hits(s.slots, key), Entries(l, key), conf(key).windowMs, clock)
    ensures Live(Hits(s.slots, key), clock - conf(key).windowMs) == Live(Entries(l, key), clock - conf(key).windowMs)
    ensures Has(s.slots, key) ==> conf(key).windowMs <= s.maxWindowMs
  {
  }

  lemma TracksLater(conf: Key -> Config, s: State, l: Ledger, early: int, late: int)
    requires Tracks(conf, s, l, early) && early <= late
    ensures Tracks(conf, s, l, late)
  {
    forall k
      ensures Agree(Hits(s.slots, k), Entries(l, k), conf(k).windowMs, late)
    {
      AgreeLater(Hits(s.slots, k), Entries(l, k), conf(k).windowMs, early, late);
    }
  }

  lemma ForgottenAgree(before: seq<int>, after: seq<int>, entries: seq<int>, windowMs: int, deadBefore: int, now: int)
    requires Agree(before, entries, windowMs, now) && deadBefore <= now - windowMs
    requires after == before || (after == [] && IsDead(before, deadBefore))
    ensures Agree(after, entries, windowMs, now)
  {
    if after != before {
      LiveOfDead(before, now - windowMs);
    }
  }

  /** Forgetting keys that are dead for every window changes nothing a verdict can see. */
  lemma ForgottenTracks(conf: Key -> Config, s: State, l: Ledger, r: State, now: int)
    requires Tracks(conf, s, l, now) && CursorOk(r) && s.maxWindowMs <= r.maxWindowMs
    requires OnlyDeadGone(s.slots, r.slots, now - r.maxWindowMs)
    ensures Tracks(conf, r, l, now)
  {
    hide Agree, IsDead, Live;
    forall k
      ensures Agree(Hits(r.slots, k), Entries(l, k), conf(k).windowMs, now)
    {
      if Has(s.slots, k) {
        ForgottenAgree(Hits(s.slots, k), Hits(r.slots, k), Entries(l, k), conf(k).windowMs, now - r.maxWindowMs, now);
      }
    }
  }

  lemma LearnedTracks(conf: Key -> Config, s: State, l: Ledger, windowMs: int, now: int)
    requires Tracks(conf, s, l, now)
    ensures Tracks(conf, Learned(s, windowMs, now), l, now)
    ensures windowMs <= Learned(s, windowMs, now).maxWindowMs
  {
    hide OnlyDeadGone, Learned, Agree;
    LearnedForgetsOnlyDead(s, windowMs, now);
    ForgottenTracks(conf, s, l, Learned(s, windowMs, now), now);
  }

  /** Rewriting one key on both sides keeps every other key as it was. */
  lemma PutTracks(conf: Key -> Config, s: State, l: Ledger, key: Key, hits: seq<int>, l': Ledger, clock: int)
    requires Tracks(conf, s, l, clock) && conf(key).windowMs <= s.maxWindowMs
    requires forall k :: k != key ==> Entries(l', k) == Entries(l, k)
    requires Agree(hits, Entries(l', key), conf(key).windowMs, clock)
    ensures Tracks(conf, s.(slots := Put(s.slots, key, hits)), l', clock)
  {
    PutHits(s.slots, key, hits);
    var r := s.(slots := Put(s.slots, key, hits));
    forall k
      ensures Agree(Hits(r.slots, k), Entries(l', k), conf(k).windowMs, clock)
    {
      if k != key {
        assert Agree(Hits(s.slots, k), Entries(l, k), conf(k).windowMs, clock);
      }
    }
  }

  lemma SameTracks(conf: Key -> Config, s: State, l: Ledger, key: Key, l': Ledger, clock: int)
    requires Tracks(conf, s, l, clock)
    requires forall k :: k != key ==> Entries(l', k) == Entries(l, k)
    requires Agree(Hits(s.slots, key), Entries(l', key), conf(key).windowMs, clock)
    ensures Tracks(conf, s, l', clock)
  {
    forall k
      ensures Agree(Hits(s.slots, k), Entries(l', k), conf(k).windowMs, clock)
    {
      if k != key {
        assert Agree(Hits(s.slots, k), Entries(l, k), conf(k).windowMs, clock);
      }
    }
  }

  lemma DropTracks(conf: Key -> Config, s: State, l: Ledger, key: Key, l': Ledger, clock: int)
    requires Tracks(conf, s, l, clock)
    requires forall k :: k != key ==> Entries(l', k) == Entries(l, k)
    requires Agree([], Entries(l', key), conf(key).windowMs, clock)
    ensures Tracks(conf, s.(slots := Drop(s.slots, key)), l', clock)
  {
    DropHits(s.slots, key);
    var r := s.(slots := Drop(s.slots, key));
    forall k
      ensures Agree(Hits(r.slots, k), Entries(l', k), conf(k).windowMs, clock)
    {
      if k != key {
        assert Agree(Hits(s.slots, k), Entries(l, k), conf(k).windowMs, clock);
      }
    }
  }

  lemma CheckedTracks(conf: Key -> Config, s: State, l: Ledger, key: Key, now: int)
    requires Tracks(conf, s, l, now)
    ensures var c := conf(key);
            var (after, v) := Checked(s, key, c.limit, c.windowMs, now);
            && Tracks(conf, after, l, now)
            && c.windowMs <= after.maxWindowMs
            && v == Judge(Live(Entries(l, key), now - c.windowMs), c.limit, c.windowMs, now)
  {
    var c := conf(key);
    hide Tracks, Agree;
    LearnedTracks(conf, s, l, c.windowMs, now);
    var ready := Learned(s, c.windowMs, now);
    var recent := Live(Hits(ready.slots, key), now - c.windowMs);
    TracksKey(conf, ready, l, now, key);
    AgreeTrimmed(Hits(ready.slots, key), Entries(l, key), c.windowMs, now);
    if |recent| >= c.limit || recent != [] {
      PutTracks(conf, ready, l, key, recent, l, now);
    } else {
      DropTracks(conf, ready, l, key, l, now);
    }
  }

  lemma RecordedTracks(conf: Key -> Config, s: State, l: Ledger, key: Key, at: int)
    requires Tracks(conf, s, l, at) && conf(key).windowMs <= s.maxWindowMs
    ensures Tracks(conf, Recorded(s, key, conf(key).windowMs, at), l[key := Entries(l, key) + [at]], at)
    ensures Tracks(conf, Pushed(s, key, at), l[key := Entries(l, key) + [at]], at)
  {
    hide Tracks, Agree;
    var hits, entries, w := Hits(s.slots, key), Entries(l, key), conf(key).windowMs;
    TracksKey(conf, s, l, at, key);
    AgreeTrimmed(hits, entries, w, at);
    AgreePushed(Live(hits, at - w), entries, w, at);
    PutTracks(conf, s, l, key, Live(hits, at - w) + [at], l[key := entries + [at]], at);
    AgreePushed(hits, entries, w, at);
    PutTracks(conf, s, l, key, hits + [at], l[key := entries + [at]], at);
  }

  lemma ReleasedTracks(conf: Key -> Config, s: State, l: Ledger, key: Key, token: int, now: int)
    requires Tracks(conf, s, l, now)
    ensures Tracks(conf, Released(s, key, token), l[key := Without(Entries(l, key), token)], now)
  {
    hide Tracks, Agree;
    var hits, entries, w := Hits(s.slots, key), Entries(l, key), conf(key).windowMs;
    TracksKey(conf, s, l, now, key);
    var l' := l[key := Without(entries, token)];
    AgreeReleased(hits, entries, w, now, token);
    if !Has(s.slots, key) || token !in hits {
      WithoutAbsent(hits, token);
      SameTracks(conf, s, l, key, l', now);
    } else if Without(hits, token) != [] {
      PutTracks(conf, s, l, key, Without(hits, token), l', now);
    } else {
      DropTracks(conf, s, l, key, l', now);
    }
  }

  lemma ChargeTracks(conf: Key -> Config, s: State, l: Ledger, op: Op)
    requires !op.Release?
    requires Tracks(conf, s, l, Start(op)) && Start(op) <= End(op)
    ensures Step(conf, s, op).1 == LedgerStep(conf, l, op).1
    ensures Tracks(conf, Step(conf, s, op).0, LedgerStep(conf, l, op).0, End(op))
  {
    hide Tracks, Checked, Recorded, Pushed, Judge, Live;
    TracksKey(conf, s, l, Start(op), op.key);
    var c := conf(op.key);
    var after := Checked(s, op.key, c.limit, c.windowMs, op.now).0;
    CheckedTracks(conf, s, l, op.key, op.now);
    TracksLater(conf, after, l, op.now, End(op));
    RecordedTracks(conf, after, l, op.key, End(op));
  }

  lemma StepTracks(conf: Key -> Config, s: State, l: Ledger, op: Op)
    requires Tracks(conf, s, l, Start(op)) && Start(op) <= End(op)
    ensures Step(conf, s, op).1 == LedgerStep(conf, l, op).1
    ensures Tracks(conf, Step(conf, s, op).0, LedgerStep(conf, l, op).0, End(op))
  {
    hide Tracks;
    if op.Release? {
      hide Released;
      ReleasedTracks(conf, s, l, op.key, op.token, op.now);
    } else {
      ChargeTracks(conf, s, l, op);
    }
  }

  /**
   For every run of checks, hits, reservations and releases, the swept and trimmed limiter answers
   exactly what a limiter that never forgets a hit answers: the same verdicts, the same waits.
   */
  lemma {:induction false} ReaperRefinesNoReaper(conf: Key -> Config, s: State, l: Ledger, ops: seq<Op>, clock: int)
    requires Tracks(conf, s, l, clock) && Clocked(ops, clock)
    ensures Run(conf, s, ops).1 == LedgerRun(conf, l, ops).1
    decreases |ops|
  {
    if ops != [] {
      TracksLater(conf, s, l, clock, Start(ops[0]));
      StepTracks(conf, s, l, ops[0]);
      ReaperRefinesNoReaper(conf, Step(conf, s, ops[0]).0, LedgerStep(conf, l, ops[0]).0, ops[1..], End(ops[0]));
    }
  }

  lemma InitialTracks(conf: Key -> Config, clock: int)
    ensures Tracks(conf, INITIAL, map[], clock)
  {
  }

  // ---- the sliding-window bound ------------------------------------------------------------------

  ghost predicate LedgerOk(conf: Key -> Config, l: Ledger, clock: int) {
    forall k :: EntriesOk(Entries(l, k), conf(k), clock)
  }

  ghost predicate EntriesOk(entries: seq<int>, c: Config, clock: int) {
    Sorted(entries) && (forall t :: t in entries ==> t <= clock) && Spaced(entries, c.limit, c.windowMs)
  }

  lemma EntriesPushed(entries: seq<int>, c: Config, now: int, at: int)
    requires EntriesOk(entries, c, now) && now <= at
    requires |Live(entries, now - c.windowMs)| < c.limit
    ensures EntriesOk(entries + [at], c, at)
  {
    AdmitKeepsSpaced(entries, c.limit, c.windowMs, now, at);
  }

  lemma LedgerStepOk(conf: Key -> Config, l: Ledger, op: Op)
    requires LedgerOk(conf, l, Start(op)) && Start(op) <= End(op)
    ensures LedgerOk(conf, LedgerStep(conf, l, op).0, End(op))
  {
    var l' := LedgerStep(conf, l, op).0;
    var c, entries := conf(op.key), Entries(l, op.key);
    assert EntriesOk(entries, c, op.now);
    if op.Release? {
      WithoutKeeps(entries, op.token, c.limit, c.windowMs);
      assert EntriesOk(Without(entries, op.token), c, op.now);
    } else if l' != l {
      EntriesPushed(entries, c, op.now, End(op));
    }
    hide Live, Without, Sorted, Spaced;
    forall k
      ensures EntriesOk(Entries(l', k), conf(k), End(op))
    {
      assert EntriesOk(Entries(l, k), conf(k), Start(op));
    }
  }

  lemma LedgerOkLater(conf: Key -> Config, l: Ledger, early: int, late: int)
    requires LedgerOk(conf, l, early) && early <= late
    ensures LedgerOk(conf, l, late)
  {
    forall k
      ensures EntriesOk(Entries(l, k), conf(k), late)
    {
      assert EntriesOk(Entries(l, k), conf(k), early);
    }
  }

  lemma {:induction false} LedgerRunOk(conf: Key -> Config, l: Ledger, ops: seq<Op>, clock: int) returns (end: int)
    requires LedgerOk(conf, l, clock) && Clocked(ops, clock)
    ensures LedgerOk(conf, LedgerRun(conf, l, ops).0, end)
    decreases |ops|
  {
    end := clock;
    if ops != [] {
      LedgerOkLater(conf, l, clock, Start(ops[0]));
      LedgerStepOk(conf, l, ops[0]);
      end := LedgerRunOk(conf, LedgerStep(conf, l, ops[0]).0, ops[1..], End(ops[0]));
    }
  }

  lemma EmptyLedgerOk(conf: Key -> Config, clock: int)
    ensures LedgerOk(conf, map[], clock)
  {
  }

  /**
   After any run, for every key and every half-open interval one window long, the hits that were
   admitted and not given back never exceed that key's limit.
   */
  lemma SlidingWindowBound(conf: Key -> Config, ops: seq<Op>, clock: int, key: Key, from: int)
    requires Clocked(ops, clock)
    ensures CountIn(Entries(LedgerRun(conf, map[], ops).0, key), from, from + conf(key).windowMs) <= conf(key).limit
  {
    EmptyLedgerOk(conf, clock);
    hide LedgerRun, Spaced, Sorted, CountIn, LedgerStep;
    var end := LedgerRunOk(conf, map[], ops, clock);
    var l := LedgerRun(conf, map[], ops).0;
    assert EntriesOk(Entries(l, key), conf(key), end);
    SpacedBoundsEveryInterval(Entries(l, key), conf(key).limit, conf(key).windowMs, from);
  }

  // ---- waits are exact ---------------------------------------------------------------------------

  lemma LiveWithinLimit(entries: seq<int>, c: Config, now: int)
    requires EntriesOk(entries, c, now)
    ensures |Live(entries, now - c.windowMs)| <= c.limit
  {
    SpacedBoundsEveryInterval(entries, c.limit, c.windowMs, now - c.windowMs);
    CountInOfLive(entries, now - c.windowMs, now);
  }

  /**
   A refusal's wait is exact to the second. If nothing else happens to the key, the limiter refuses
   at every instant before the oldest in-window hit ages out and admits at every instant from then
   on, and `retryAfterSec` is the least whole number of seconds that reaches it.
   */
  lemma RetryAfterIsExact(conf: Key -> Config, l: Ledger, key: Key, now: int, later: int)
    requires LedgerOk(conf, l, now) && now <= later && conf(key).limit >= 1
    requires LedgerStep(conf, l, Check(key, now)).1.Wait?
    ensures var retry := LedgerStep(conf, l, Check(key, now)).1.retryAfterSec;
            var free := Live(Entries(l, key), now - conf(key).windowMs)[0] + conf(key).windowMs;
            && (LedgerStep(conf, l, Check(key, later)).1.Ok? <==> later >= free)
            && retry >= 1 && now + 1000 * (retry - 1) < free <= now + 1000 * retry
  {
    var c, entries := conf(key), Entries(l, key);
    assert EntriesOk(entries, c, now);
    var recent := Live(entries, now - c.windowMs);
    LiveWithinLimit(entries, c, now);
    assert |recent| == c.limit;
    var dead := LiveIsSuffix(entries, now - c.windowMs);
    CeilSecondsIs(recent[0] + c.windowMs - now);
    LiveTwice(entries, now - c.windowMs, later - c.windowMs);
    var gone := LiveIsSuffix(recent, later - c.windowMs);
  }

  // ---- what is kept ------------------------------------------------------------------------------

  /** Everything of `other` is as it was, or it was forgotten with every hit of it dead. */
  predicate LeftAlone(before: seq<Slot>, after: seq<Slot>, other: Key, deadBefore: int) {
    Hits(after, other) == Hits(before, other) || (Hits(after, other) == [] && IsDead(Hits(before, other), deadBefore))
  }

  /** What is stored of a key after a call that judged it on the hits `live`. */
  function Kept(op: Op, v: Verdict, live: seq<int>, windowMs: int): seq<int> {
    match op
    case Hit(_, _, at) => if v.Ok? then Live(live, at - windowMs) + [at] else live
    case Reserve(_, _, at) => if v.Ok? then live + [at] else live
    case _ => live
  }

  /**
   What a check, hit or reservation leaves of its key: exactly the ledger's live hits, with the new one last
   when it was admitted, so never more of them than the limit; a key with nothing left is dropped unless
   its limit is nothing too. Of any other key it leaves everything, or forgets it when every hit is dead.
   */
  lemma ChargeKeepsOnlyTheLive(conf: Key -> Config, s: State, l: Ledger, op: Op, other: Key)
    requires CursorOk(s) && Tracks(conf, s, l, op.now) && LedgerOk(conf, l, op.now) && !op.Release?
    ensures
      var c := conf(op.key);
      var (r, v) := Step(conf, s, op);
      var kept := Kept(op, v, Live(Entries(l, op.key), op.now - c.windowMs), c.windowMs);
      && Hits(r.slots, op.key) == kept && |kept| <= c.limit
      && (Has(r.slots, op.key) <==> kept != [] || c.limit == 0)
      && (other != op.key ==> LeftAlone(s.slots, r.slots, other, op.now - Max(s.maxWindowMs, c.windowMs)))
  {
    hide Tracks, LedgerOk, Checked, Live, Has, Put, Drop, Hits, IsDead, RetryAfter, Distinct, CursorOk, Learned;
    CheckKeepsOnlyTheLive(conf, s, l, op.key, op.now, other);
    var c := conf(op.key);
    var after := Checked(s, op.key, c.limit, c.windowMs, op.now).0;
    var live := Live(Entries(l, op.key), op.now - c.windowMs);
    RewrittenAt(after.slots, op.key, Live(live, End(op) - c.windowMs) + [End(op)], other);
    RewrittenAt(after.slots, op.key, live + [End(op)], other);
    LiveNoMore(live, End(op) - c.windowMs);
  }

  lemma CheckKeepsOnlyTheLive(conf: Key -> Config, s: State, l: Ledger, key: Key, now: int, other: Key)
    requires CursorOk(s) && Tracks(conf, s, l, now) && LedgerOk(conf, l, now)
    ensures
      var c := conf(key);
      var (r, v) := Checked(s, key, c.limit, c.windowMs, now);
      var live := Live(Entries(l, key), now - c.windowMs);
      && Distinct(r.slots) && Hits(r.slots, key) == live && |live| <= c.limit
      && v == Judge(live, c.limit, c.windowMs, now)
      && (Has(r.slots, key) <==> live != [] || c.limit == 0)
      && (other != key ==> LeftAlone(s.slots, r.slots, other, now - Max(s.maxWindowMs, c.windowMs)))
  {
    hide Tracks, LedgerOk, Learned, Live, Has, Put, Drop, Hits, IsDead, Judge, Distinct, CursorOk;
    TracksDistinct(conf, s, l, now);
    var c := conf(key);
    var ready := Learned(s, c.windowMs, now);
    LearnedTracks(conf, s, l, c.windowMs, now);
    LearnedForgetsOnlyDead(s, c.windowMs, now);
    OnlyDeadGoneAt(s.slots, ready.slots, now - Max(s.maxWindowMs, c.windowMs), other);
    TracksKey(conf, ready, l, now, key);
    RewrittenAt(ready.slots, key, Live(Hits(ready.slots, key), now - c.windowMs), other);
    LedgerWithinLimit(conf, l, key, now);
  }

  lemma RewrittenAt(slots: seq<Slot>, key: Key, hits: seq<int>, other: Key)
    requires Distinct(slots)
    ensures
      var put, dropped := Put(slots, key, hits), Drop(slots, key);
      && Distinct(put) && Hits(put, key) == hits && Has(put, key)
      && Distinct(dropped) && Hits(dropped, key) == [] && !Has(dropped, key)
      && (other != key ==> Hits(put, other) == Hits(slots, other) && Hits(dropped, other) == Hits(slots, other))
  {
    hide Distinct, Put, Drop, Hits, Has;
    PutHits(slots, key, hits);
    DropHits(slots, key);
  }

  lemma TracksDistinct(conf: Key -> Config, s: State, l: Ledger, clock: int)
    requires Tracks(conf, s, l, clock)
    ensures CursorOk(s) && Distinct(s.slots)
  {
  }

  lemma OnlyDeadGoneAt(a: seq<Slot>, b: seq<Slot>, deadBefore: int, key: Key)
    requires OnlyDeadGone(a, b, deadBefore)
    ensures Distinct(b)
    ensures LeftAlone(a, b, key, deadBefore)
  {
  }

  lemma {:induction false} LiveNoMore(hits: seq<int>, cutoff: int)
    ensures |Live(hits, cutoff)| <= |hits|
  {
    if hits != [] {
      LiveNoMore(hits[1..], cutoff);
    }
  }

  lemma LedgerWithinLimit(conf: Key -> Config, l: Ledger, key: Key, now: int)
    requires LedgerOk(conf, l, now)
    ensures |Live(Entries(l, key), now - conf(key).windowMs)| <= conf(key).limit
  {
    assert EntriesOk(Entries(l, key), conf(key), now);
    LiveWithinLimit(Entries(l, key), conf(key), now);
  }

  // ---- giving a reservation back -----------------------------------------------------------------

  /** A release takes exactly one slot, of exactly that value, of exactly that key, iff it is held. */
  lemma ReleaseIsExact(s: State, key: Key, token: int)
    requires Distinct(s.slots)
    ensures var r := Released(s, key, token);
            && multiset(Hits(r.slots, key)) == multiset(Hits(s.slots, key)) - multiset{token}
            && |Hits(r.slots, key)| == |Hits(s.slots, key)| - (if token in Hits(s.slots, key) then 1 else 0)
            && (token in Hits(s.slots, key) ==> (Has(r.slots, key) <==> Hits(r.slots, key) != []))
            && forall k :: k != key ==> Hits(r.slots, k) == Hits(s.slots, k)
  {
    var hits := Hits(s.slots, key);
    WithoutMultiset(hits, token);
    PutHits(s.slots, key, Without(hits, token));
    DropHits(s.slots, key);
    hide Without;
    if token in hits {
      var at := WithoutShape(hits, token);
    }
  }

  // ---- the reaper is bounded and complete ----------------------------------------------------------

  lemma {:induction false} ReapIsBounded(s: State, deadBefore: int, budget: nat)
    requires s.cursor.Some? && CursorOk(s)
    ensures var r := Reap(s, deadBefore, budget);
            && s.stats.passes <= r.stats.passes <= s.stats.passes + 1
            && s.stats.scanned <= r.stats.scanned <= s.stats.scanned + budget
            && (r.stats.passes == s.stats.passes ==> r.stats.scanned == s.stats.scanned + budget)
            && (r.stats.passes == s.stats.passes ==> r.cursor.Some?)
            && Size(r.slots) + r.stats.evicted == Size(s.slots) + s.stats.evicted
    decreases budget
  {
    hide Reap;
    ReapUnfolds(s, deadBefore, budget);
    if budget != 0 {
      var at := NextHeld(s.slots, s.cursor.value);
      if at < |s.slots| {
        var seen := s.(cursor := Some(at + 1), stats := s.stats.(scanned := s.stats.scanned + 1));
        if IsDead(s.slots[at].hits, deadBefore) {
          SizeEvicted(s.slots, at);
          ReapIsBounded(Evict(seen, at), deadBefore, budget - 1);
        } else {
          ReapIsBounded(seen, deadBefore, budget - 1);
        }
      }
    }
  }

  lemma {:induction false} SizeEvicted(slots: seq<Slot>, at: nat)
    requires at < |slots| && slots[at].Held?
    ensures Size(slots[at := Gone]) == Size(slots) - 1
  {
    if at == 0 {
      assert slots[0 := Gone][1..] == slots[1..];
    } else {
      assert slots[at := Gone][1..] == slots[1..][at - 1 := Gone];
      SizeEvicted(slots[1..], at - 1);
    }
  }

  /**
   One call runs at most one tick, and exactly when ten seconds are up, or one when more than ten thousand
   keys are held. A tick inspects 256 keys, 4096 under that pressure, and fewer only by finishing the pass;
   keys evicted plus keys held is conserved, and the peak is the most keys any call found.
   */
  lemma TickIsBounded(s: State, windowMs: int, now: int)
    requires CursorOk(s)
    ensures
      var r := Learned(s, windowMs, now);
      var interval := if Size(s.slots) > 10_000 then 1_000 else 10_000;
      var budget: nat := if Size(s.slots) > 10_000 then 4_096 else 256;
      && s.stats.scanned <= r.stats.scanned <= s.stats.scanned + budget
      && Size(r.slots) + r.stats.evicted == Size(s.slots) + s.stats.evicted
      && r.stats.peakKeys == (if Size(s.slots) > s.stats.peakKeys then Size(s.slots) else s.stats.peakKeys)
      && (now - s.lastSweepAt < interval ==>
            && r.slots == s.slots && r.cursor == s.cursor && r.lastSweepAt == s.lastSweepAt
            && r.stats.(peakKeys := 0) == s.stats.(peakKeys := 0))
      && (now - s.lastSweepAt >= interval ==>
            && r.lastSweepAt == r.stats.lastSweepAt == now && r.stats.sweeps == s.stats.sweeps + 1
            && (r.stats.scanned == s.stats.scanned + budget || r.stats.passes == s.stats.passes + 1))
  {
    var wide := s.(maxWindowMs := Max(s.maxWindowMs, windowMs));
    var peaked := if Size(s.slots) > s.stats.peakKeys then wide.(stats := s.stats.(peakKeys := Size(s.slots))) else wide;
    if now - s.lastSweepAt >= SweepInterval(s.slots) {
      ReapIsBounded(SweepStart(peaked, now), now - wide.maxWindowMs, SweepBudget(s.slots));
      ReapKeepsTimes(SweepStart(peaked, now), now - wide.maxWindowMs, SweepBudget(s.slots));
    }
  }

  lemma {:induction false} ReapKeepsTimes(s: State, deadBefore: int, budget: nat)
    requires s.cursor.Some? && CursorOk(s)
    ensures var r := Reap(s, deadBefore, budget);
            && r.lastSweepAt == s.lastSweepAt && r.stats.lastSweepAt == s.stats.lastSweepAt
            && r.stats.sweeps == s.stats.sweeps && r.stats.peakKeys == s.stats.peakKeys && |r.slots| == |s.slots|
    decreases budget
  {
    hide Reap;
    ReapUnfolds(s, deadBefore, budget);
    if budget != 0 {
      var at := NextHeld(s.slots, s.cursor.value);
      if at < |s.slots| {
        ReapKeepsTimes(Inspect(s, at, deadBefore), deadBefore, budget - 1);
      }
    }
  }

  function CursorPos(s: State): nat {
    if s.cursor.Some? then s.cursor.value else 0
  }

  /** Since a pass numbered `pass` began, `key` either went or still waits in record `i`, ahead of the cursor. */
  ghost predicate Ahead(s: State, key: Key, i: nat, hits: seq<int>, pass: nat) {
    && s.stats.passes >= pass
    && (Has(s.slots, key) ==>
          s.stats.passes == pass && i < |s.slots| && s.slots[i] == Held(key, hits) && CursorPos(s) <= i)
  }

  lemma {:induction false} ReapReaches(s: State, deadBefore: int, budget: nat, key: Key, i: nat, hits: seq<int>, pass: nat)
    requires s.cursor.Some? && CursorOk(s) && Distinct(s.slots)
    requires Ahead(s, key, i, hits, pass) && IsDead(hits, deadBefore)
    ensures Ahead(Reap(s, deadBefore, budget), key, i, hits, pass)
    decreases budget
  {
    hide Reap;
    ReapUnfolds(s, deadBefore, budget);
    if budget != 0 {
      var at := NextHeld(s.slots, s.cursor.value);
      if at < |s.slots| {
        var seen := s.(cursor := Some(at + 1), stats := s.stats.(scanned := s.stats.scanned + 1));
        if IsDead(s.slots[at].hits, deadBefore) {
          FindIs(s.slots, at);
          DropHits(s.slots, s.slots[at].key);
          ReapReaches(Evict(seen, at), deadBefore, budget - 1, key, i, hits, pass);
        } else {
          ReapReaches(seen, deadBefore, budget - 1, key, i, hits, pass);
        }
      }
    }
  }

  lemma LearnedReaches(s: State, windowMs: int, now: int, key: Key, i: nat, hits: seq<int>, pass: nat)
    requires CursorOk(s) && Distinct(s.slots)
    requires Ahead(s, key, i, hits, pass) && IsDead(hits, now - Max(s.maxWindowMs, windowMs))
    ensures Ahead(Learned(s, windowMs, now), key, i, hits, pass)
  {
    var wide := s.(maxWindowMs := Max(s.maxWindowMs, windowMs));
    var peaked := if Size(s.slots) > s.stats.peakKeys then wide.(stats := s.stats.(peakKeys := Size(s.slots))) else wide;
    if now - s.lastSweepAt >= SweepInterval(s.slots) {
      ReapReaches(SweepStart(peaked, now), now - wide.maxWindowMs, SweepBudget(s.slots), key, i, hits, pass);
    }
  }

  lemma OtherKeyKeepsAhead(s: State, other: Key, hits': seq<int>, key: Key, i: nat, hits: seq<int>, pass: nat)
    requires Distinct(s.slots) && other != key && Ahead(s, key, i, hits, pass)
    ensures Ahead(s.(slots := Put(s.slots, other, hits')), key, i, hits, pass) && Distinct(Put(s.slots, other, hits'))
    ensures Ahead(s.(slots := Drop(s.slots, other)), key, i, hits, pass) && Distinct(Drop(s.slots, other))
  {
    PutHits(s.slots, other, hits');
    DropHits(s.slots, other);
  }

  lemma CheckedReaches(s: State, other: Key, limit: nat, windowMs: int, now: int,
                       key: Key, i: nat, hits: seq<int>, pass: nat)
    requires CursorOk(s) && Distinct(s.slots) && other != key
    requires Ahead(s, key, i, hits, pass) && IsDead(hits, now - Max(s.maxWindowMs, windowMs))
    ensures var r := Checked(s, other, limit, windowMs, now).0;
            Ahead(r, key, i, hits, pass) && Distinct(r.slots) && r.maxWindowMs == Max(s.maxWindowMs, windowMs)
  {
    hide Ahead, Distinct, Learned, Live, Hits, Put, Drop, IsDead, Has, OnlyDeadGone, Judge;
    var ready := Learned(s, windowMs, now);
    LearnedReaches(s, windowMs, now, key, i, hits, pass);
    LearnedForgetsOnlyDead(s, windowMs, now);
    OnlyDeadGoneDistinct(s.slots, ready.slots, now - Max(s.maxWindowMs, windowMs));
    OtherKeyKeepsAhead(ready, other, Live(Hits(ready.slots, other), now - windowMs), key, i, hits, pass);
  }

  lemma ReleasedReaches(s: State, other: Key, token: int, key: Key, i: nat, hits: seq<int>, pass: nat)
    requires Distinct(s.slots) && other != key && Ahead(s, key, i, hits, pass)
    ensures var r := Released(s, other, token);
            Ahead(r, key, i, hits, pass) && Distinct(r.slots) && r.maxWindowMs == s.maxWindowMs
  {
    hide Ahead, Distinct, Hits, Put, Drop, Has;
    OtherKeyKeepsAhead(s, other, Without(Hits(s.slots, other), token), key, i, hits, pass);
  }

  lemma IsDeadWider(hits: seq<int>, deadBefore: int, later: int)
    requires IsDead(hits, deadBefore) && deadBefore <= later
    ensures IsDead(hits, later)
  {
  }

  lemma StepReaches(conf: Key -> Config, s: State, op: Op, key: Key, i: nat, hits: seq<int>, pass: nat, widest: int)
    requires CursorOk(s) && Distinct(s.slots) && op.key != key
    requires s.maxWindowMs <= widest && conf(op.key).windowMs <= widest
    requires Ahead(s, key, i, hits, pass) && IsDead(hits, Start(op) - widest)
    ensures var r := Step(conf, s, op).0;
            Ahead(r, key, i, hits, pass) && Distinct(r.slots) && r.maxWindowMs <= widest
  {
    hide Ahead, Distinct, Checked, Released, Live, Hits, Put, IsDead, Has;
    var c := conf(op.key);
    if op.Release? {
      ReleasedReaches(s, op.key, op.token, key, i, hits, pass);
    } else {
      IsDeadWider(hits, op.now - widest, op.now - Max(s.maxWindowMs, c.windowMs));
      CheckedReaches(s, op.key, c.limit, c.windowMs, op.now, key, i, hits, pass);
      var after := Checked(s, op.key, c.limit, c.windowMs, op.now).0;
      OtherKeyKeepsAhead(after, op.key, Live(Hits(after.slots, op.key), End(op) - c.windowMs) + [End(op)], key, i, hits, pass);
      OtherKeyKeepsAhead(after, op.key, Hits(after.slots, op.key) + [End(op)], key, i, hits, pass);
    }
  }

  lemma {:induction false} RunReaches(conf: Key -> Config, s: State, ops: seq<Op>, clock: int,
                                      key: Key, i: nat, hits: seq<int>, pass: nat, widest: int)
    requires CursorOk(s) && Distinct(s.slots) && Clocked(ops, clock)
    requires forall op :: op in ops ==> op.key != key && conf(op.key).windowMs <= widest
    requires s.maxWindowMs <= widest
    requires Ahead(s, key, i, hits, pass) && IsDead(hits, clock - widest)
    ensures Ahead(Run(conf, s, ops).0, key, i, hits, pass)
    decreases |ops|
  {
    if ops != [] {
      hide Ahead, Distinct, Step, IsDead;
      IsDeadWider(hits, clock - widest, Start(ops[0]) - widest);
      IsDeadWider(hits, clock - widest, End(ops[0]) - widest);
      StepReaches(conf, s, ops[0], key, i, hits, pass, widest);
      RunReaches(conf, Step(conf, s, ops[0]).0, ops[1..], End(ops[0]), key, i, hits, pass, widest);
    }
  }

  /**
   The reaper leaves nothing behind: a key that is dead for the widest window charged and that no
   call touches is gone once a pass that had not yet reached it completes, whatever the calls on
   other keys insert, delete or sweep meanwhile.
   */
  lemma DeadKeyGoneAfterOnePass(conf: Key -> Config, s: State, ops: seq<Op>, clock: int, key: Key, widest: int)
    requires CursorOk(s) && Distinct(s.slots) && Clocked(ops, clock)
    requires forall op :: op in ops ==> op.key != key && conf(op.key).windowMs <= widest
    requires s.maxWindowMs <= widest
    requires Has(s.slots, key) && CursorPos(s) <= Find(s.slots, key)
    requires IsDead(Hits(s.slots, key), clock - widest)
    requires Run(conf, s, ops).0.stats.passes > s.stats.passes
    ensures !Has(Run(conf, s, ops).0.slots, key)
  {
    RunReaches(conf, s, ops, clock, key, Find(s.slots, key), Hits(s.slots, key), s.stats.passes, widest);
  }

  // ---- a pass finishes ---------------------------------------------------------------------------

  /** The keys the pass has still to look at. */
  function HeldAhead(s: State): nat
    requires CursorOk(s)
  {
    Size(s.slots[CursorPos(s)..])
  }

  lemma {:induction false} SizeSkipsGone(slots: seq<Slot>, from: nat, at: nat)
    requires from <= at <= |slots| && forall i :: from <= i < at ==> slots[i].Gone?
    ensures Size(slots[from..]) == Size(slots[at..])
    decreases at - from
  {
    if from < at {
      assert slots[from..][0] == slots[from] && slots[from..][1..] == slots[from + 1..];
      SizeSkipsGone(slots, from + 1, at);
    }
  }

  /** A tick that does not finish the pass leaves exactly its budget fewer keys ahead. */
  lemma {:induction false} ReapAdvances(s: State, deadBefore: int, budget: nat)
    requires s.cursor.Some? && CursorOk(s)
    ensures
      var r := Reap(s, deadBefore, budget);
      r.stats.passes > s.stats.passes || HeldAhead(r) + budget == HeldAhead(s)
    decreases budget
  {
    hide Reap, IsDead, Size;
    ReapUnfolds(s, deadBefore, budget);
    if budget != 0 {
      var at := NextHeld(s.slots, s.cursor.value);
      if at < |s.slots| {
        SizeSkipsGone(s.slots, s.cursor.value, at);
        SizeAtHeld(s.slots, at);
        var seen := Inspect(s, at, deadBefore);
        assert seen.slots[at + 1..] == s.slots[at + 1..];
        ReapAdvances(seen, deadBefore, budget - 1);
        ReapIsBounded(seen, deadBefore, budget - 1);
      }
    }
  }

  lemma SizeAtHeld(slots: seq<Slot>, at: nat)
    requires at < |slots| && slots[at].Held?
    ensures Size(slots[at..]) == 1 + Size(slots[at + 1..])
  {
    assert slots[at..][0] == slots[at] && slots[at..][1..] == slots[at + 1..];
  }

  lemma LearnedAdvances(s: State, windowMs: int, now: int)
    requires CursorOk(s)
    ensures
      var r := Learned(s, windowMs, now);
      && s.stats.passes <= r.stats.passes && s.stats.sweeps <= r.stats.sweeps
      && (r.stats.passes > s.stats.passes || HeldAhead(r) + 256 * (r.stats.sweeps - s.stats.sweeps) <= HeldAhead(s))
  {
    hide Reap;
    var wide := s.(maxWindowMs := Max(s.maxWindowMs, windowMs));
    var peaked := if Size(s.slots) > s.stats.peakKeys then wide.(stats := s.stats.(peakKeys := Size(s.slots))) else wide;
    if now - s.lastSweepAt >= SweepInterval(s.slots) {
      var start := SweepStart(peaked, now);
      ReapAdvances(start, now - wide.maxWindowMs, SweepBudget(s.slots));
      ReapIsBounded(start, now - wide.maxWindowMs, SweepBudget(s.slots));
      ReapKeepsTimes(start, now - wide.maxWindowMs, SweepBudget(s.slots));
    }
  }

  lemma {:induction false} SizeAppend(slots: seq<Slot>, slot: Slot)
    ensures Size(slots + [slot]) == Size(slots) + (if slot.Held? then 1 else 0)
  {
    if slots != [] {
      assert (slots + [slot])[1..] == slots[1..] + [slot];
      SizeAppend(slots[1..], slot);
    }
  }

  lemma {:induction false} SizeUpdate(slots: seq<Slot>, at: nat, slot: Slot)
    requires at < |slots| && slots[at].Held?
    ensures Size(slots[at := slot]) == Size(slots) - (if slot.Held? then 0 else 1)
  {
    if at == 0 {
      assert slots[0 := slot][1..] == slots[1..];
    } else {
      assert slots[at := slot][1..] == slots[1..][at - 1 := slot];
      SizeUpdate(slots[1..], at - 1, slot);
    }
  }

  /** Rewriting a key adds one key ahead at most, and none when the key is held already; dropping one adds none. */
  lemma RewriteAhead(s: State, key: Key, hits: seq<int>)
    requires CursorOk(s) && Distinct(s.slots)
    ensures
      var put, dropped := s.(slots := Put(s.slots, key, hits)), s.(slots := Drop(s.slots, key));
      && CursorOk(put) && Distinct(put.slots) && Has(put.slots, key)
      && HeldAhead(put) <= HeldAhead(s) + (if Has(s.slots, key) then 0 else 1)
      && CursorOk(dropped) && Distinct(dropped.slots) && HeldAhead(dropped) <= HeldAhead(s)
  {
    hide Size;
    PutHits(s.slots, key, hits);
    DropHits(s.slots, key);
    var at, from := Find(s.slots, key), CursorPos(s);
    if at < |s.slots| {
      if from <= at {
        assert s.slots[at := Held(key, hits)][from..] == s.slots[from..][at - from := Held(key, hits)];
        assert s.slots[at := Gone][from..] == s.slots[from..][at - from := Gone];
        SizeUpdate(s.slots[from..], at - from, Held(key, hits));
        SizeUpdate(s.slots[from..], at - from, Gone);
      } else {
        assert s.slots[at := Held(key, hits)][from..] == s.slots[from..] == s.slots[at := Gone][from..];
      }
    } else {
      assert (s.slots + [Held(key, hits)])[from..] == s.slots[from..] + [Held(key, hits)];
      SizeAppend(s.slots[from..], Held(key, hits));
    }
  }

  lemma StepAdvances(conf: Key -> Config, s: State, op: Op)
    requires CursorOk(s) && Distinct(s.slots)
    ensures
      var r := Step(conf, s, op).0;
      && Distinct(r.slots) && s.stats.passes <= r.stats.passes && s.stats.sweeps <= r.stats.sweeps
      && (r.stats.passes > s.stats.passes || HeldAhead(r) + 256 * (r.stats.sweeps - s.stats.sweeps) <= HeldAhead(s) + 1)
  {
    hide Learned, HeldAhead, Distinct, Put, Drop, Has, Hits, Live, Judge;
    var c := conf(op.key);
    if op.Release? {
      RewriteAhead(s, op.key, Without(Hits(s.slots, op.key), op.token));
    } else {
      LearnedAdvances(s, c.windowMs, op.now);
      LearnedForgetsOnlyDead(s, c.windowMs, op.now);
      var ready := Learned(s, c.windowMs, op.now);
      OnlyDeadGoneDistinct(s.slots, ready.slots, op.now - Max(s.maxWindowMs, c.windowMs));
      RewriteAhead(ready, op.key, Live(Hits(ready.slots, op.key), op.now - c.windowMs));
      var after := Checked(s, op.key, c.limit, c.windowMs, op.now).0;
      RewriteAhead(after, op.key, Live(Hits(after.slots, op.key), End(op) - c.windowMs) + [End(op)]);
      RewriteAhead(after, op.key, Hits(after.slots, op.key) + [End(op)]);
    }
  }

  /**
   The reaper makes progress: whatever a run of calls inserts, drops or sweeps, a pass is over once its
   ticks could have looked at every key that was ahead of it and one more for every call.
   */
  lemma {:induction false} PassFinishes(conf: Key -> Config, s: State, ops: seq<Op>)
    requires CursorOk(s) && Distinct(s.slots)
    ensures
      var r := Run(conf, s, ops).0;
      && s.stats.passes <= r.stats.passes && s.stats.sweeps <= r.stats.sweeps
      && (256 * (r.stats.sweeps - s.stats.sweeps) > HeldAhead(s) + |ops| ==> r.stats.passes > s.stats.passes)
    decreases |ops|
  {
    RunAdvances(conf, s, ops);
  }

  lemma {:induction false} RunAdvances(conf: Key -> Config, s: State, ops: seq<Op>)
    requires CursorOk(s) && Distinct(s.slots)
    ensures
      var r := Run(conf, s, ops).0;
      && s.stats.passes <= r.stats.passes && s.stats.sweeps <= r.stats.sweeps
      && (r.stats.passes > s.stats.passes || HeldAhead(r) + 256 * (r.stats.sweeps - s.stats.sweeps) <= HeldAhead(s) + |ops|)
    decreases |ops|
  {
    hide Step, HeldAhead, Distinct;
    if ops != [] {
      StepAdvances(conf, s, ops[0]);
      RunAdvances(conf, Step(conf, s, ops[0]).0, ops[1..]);
    }
  }

  /** So a dead key that nobody touches is gone after that many ticks. */
  lemma DeadKeyGoneInTime(conf: Key -> Config, s: State, ops: seq<Op>, clock: int, key: Key, widest: int)
    requires CursorOk(s) && Distinct(s.slots) && Clocked(ops, clock)
    requires forall op :: op in ops ==> op.key != key && conf(op.key).windowMs <= widest
    requires s.maxWindowMs <= widest
    requires Has(s.slots, key) && CursorPos(s) <= Find(s.slots, key)
    requires IsDead(Hits(s.slots, key), clock - widest)
    requires 256 * (Run(conf, s, ops).0.stats.sweeps - s.stats.sweeps) > HeldAhead(s) + |ops|
    ensures !Has(Run(conf, s, ops).0.slots, key)
  {
    PassFinishes(conf, s, ops);
    DeadKeyGoneAfterOnePass(conf, s, ops, clock, key, widest);
  }

  // ---- the module's state, updated in place --------------------------------------------------------

  class Limiter {
    var slots: seq<Slot>
    var sweepCursor: Option<nat>
    var lastSweepAt: int
    var maxWindowMs: int
    var stats: Stats

    ghost function View(): State
      reads this
    {
      State(slots, sweepCursor, lastSweepAt, maxWindowMs, stats)
    }

    constructor ()
      ensures View() == INITIAL
    {
      slots, sweepCursor, lastSweepAt, maxWindowMs := [], None, 0, 0;
      stats := Stats(0, 0, 0, 0, 0, 0);
    }

    method Sweep(now: int)
      requires CursorOk(View())
      modifies this
      ensures View() == Swept(old(View()), now)
    {
      hide Size, NextHeld, Reap;
      lastSweepAt := now;
      stats := stats.(sweeps := stats.sweeps + 1, lastSweepAt := now);
      var budget := if Size(slots) > KEY_PRESSURE_MARK then SWEEP_BUDGET_PRESSURE else SWEEP_BUDGET;
      var deadBefore := now - maxWindowMs;
      if sweepCursor == None {
        sweepCursor := Some(0);
      }
      ghost var goal := Reap(View(), deadBefore, budget);
      assert goal == Swept(old(View()), now);
      for i := 0 to budget
        invariant sweepCursor.Some? && CursorOk(View())
        invariant goal == Reap(View(), deadBefore, budget - i)
      {
        ghost var before := View();
        ReapUnfolds(before, deadBefore, budget - i);
        var at := NextHeld(slots, sweepCursor.value);
        if at == |slots| {
          sweepCursor := None;
          stats := stats.(passes := stats.passes + 1);
          assert View() == goal;
          return;
        }
        sweepCursor := Some(at + 1);
        stats := stats.(scanned := stats.scanned + 1);
        var hits := slots[at].hits;
        if hits == [] || hits[|hits| - 1] <= deadBefore {
          slots := slots[at := Gone];
          stats := stats.(evicted := stats.evicted + 1);
        }
        assert View() == Inspect(before, at, deadBefore);
      }
      ReapUnfolds(View(), deadBefore, 0);
    }

    method MaybeSweep(now: int)
      requires CursorOk(View())
      modifies this
      ensures View() == MaybeSwept(old(View()), now)
    {
      if Size(slots) > stats.peakKeys {
        stats := stats.(peakKeys := Size(slots));
      }
      var interval := if Size(slots) > KEY_PRESSURE_MARK then SWEEP_INTERVAL_PRESSURE_MS else SWEEP_INTERVAL_MS;
      if now - lastSweepAt >= interval {
        Sweep(now);
      }
    }

    method CheckWindow(key: Key, limit: nat, windowMs: int, now: int) returns (v: Verdict)
      requires CursorOk(View())
      modifies this
      ensures (View(), v) == Checked(old(View()), key, limit, windowMs, now)
    {
      if windowMs > maxWindowMs {
        maxWindowMs := windowMs;
      }
      MaybeSweep(now);
      var recent := Live(Hits(slots, key), now - windowMs);
      if |recent| >= limit {
        slots := Put(slots, key, recent);
        v := Wait(RetryAfter(recent, windowMs, now));
      } else {
        if recent != [] {
          slots := Put(slots, key, recent);
        } else {
          slots := Drop(slots, key);
        }
        v := Ok;
      }
    }

    method RecordHit(key: Key, windowMs: int, now: int)
      requires CursorOk(View())
      modifies this
      ensures View() == Recorded(old(View()), key, windowMs, now) && CursorOk(View())
    {
      slots := Put(slots, key, Live(Hits(slots, key), now - windowMs) + [now]);
    }

    method Hit(key: Key, limit: nat, windowMs: int, now: int, at: int) returns (v: Verdict)
      requires CursorOk(View())
      modifies this
      ensures (View(), v) == AfterHit(old(View()), key, limit, windowMs, now, at) && CursorOk(View())
    {
      v := CheckWindow(key, limit, windowMs, now);
      if v.Ok? {
        RecordHit(key, windowMs, at);
      }
    }

    method ReserveHit(key: Key, limit: nat, windowMs: int, now: int, at: int) returns (v: Verdict)
      requires CursorOk(View())
      modifies this
      ensures (View(), v) == AfterReserve(old(View()), key, limit, windowMs, now, at) && CursorOk(View())
    {
      v := CheckWindow(key, limit, windowMs, now);
      if v.Ok? {
        slots := Put(slots, key, Hits(slots, key) + [at]);
      }
    }

    method ReleaseHit(key: Key, token: int)
      requires CursorOk(View())
      modifies this
      ensures View() == Released(old(View()), key, token) && CursorOk(View())
    {
      var at := Find(slots, key);
      if at == |slots| {
        return;
      }
      var hits := slots[at].hits;
      var i := |hits|;
      while i > 0 && hits[i - 1] != token
        invariant 0 <= i <= |hits|
        invariant forall j :: i <= j < |hits| ==> hits[j] != token
      {
        i := i - 1;
      }
      if i == 0 {
        return;
      }
      WithoutIsSplice(hits, token, i - 1);
      var rest := hits[..i - 1] + hits[i..];
      if rest != [] {
        slots := Put(slots, key, rest);
      } else {
        slots := Drop(slots, key);
      }
    }
  }
}
