/**
 What a refused charge costs everyone else. A run is compared with the same run less that charge: its
 segments taken out and later charges renumbered. A charge refused before it ever waited makes no
 difference to anyone; one that waited holding a slot makes none exactly when nobody was turned away
 from a full window while its slot was live in it.
 */
module RateLimitErasure {
  import opened Common
  import opened SlidingWindow
  import opened RateLimitWindow
  import opened RateLimitCharge
  import opened RateLimitOutcome
  import StableSort

  // ---- one charge less ---------------------------------------------------------------------------

  function DropAt(charges: seq<Charge>, id: nat): (r: seq<Charge>)
    requires id < |charges|
    ensures |r| == |charges| - 1
    ensures forall i :: 0 <= i < |r| ==> r[i] == charges[if i < id then i else i + 1]
  {
    charges[..id] + charges[id + 1..]
  }

  function Renumbered(id: nat, j: nat): nat {
    if j > id then j - 1 else j
  }

  function Shifted(e: Event, id: nat): Event {
    match e
    case Begin(_, _, _, _, _, _, _) => e
    case Resume(j, reply, failOpen, t3, t4) => Resume(Renumbered(id, j), reply, failOpen, t3, t4)
  }

  /** The run without charge `id`, when `n` charges have begun so far. */
  function Erase(events: seq<Event>, n: nat, id: nat): seq<Event>
    decreases |events|
  {
    if events == [] then []
    else if events[0].Begin? then
      (if n == id then [] else [events[0]]) + Erase(events[1..], n + 1, id)
    else
      (if events[0].id == id then [] else [Shifted(events[0], id)]) + Erase(events[1..], n, id)
  }

  predicate HoldsLive(conf: Key -> Config, c: Charge, key: Key, now: int) {
    Holding(c) && c.key == key && c.token > now - conf(key).windowMs
  }

  /** Somebody is turned away from the window of `key` while charge `id` has a live slot in it. */
  predicate NoticedAt(conf: Key -> Config, charges: seq<Charge>, id: nat, key: Key, now: int)
    requires id < |charges|
  {
    HoldsLive(conf, charges[id], key, now) && VerdictOn(conf, charges, key, now).Wait?
  }

  predicate Notices(conf: Key -> Config, charges: seq<Charge>, id: nat, e: Event)
    requires id < |charges| && (e.Resume? ==> e.id < |charges|)
  {
    match e
    case Begin(key, cfg, shared, t1, t2, t3, _) =>
      || NoticedAt(conf, charges, id, key, t1)
      || (VerdictOn(conf, charges, key, t1).Ok? && !shared
          && NoticedAt(conf, charges + [Charge(key, cfg, t2, None, None)], id, LocalGlobalKey(cfg), t3))
    case Resume(j, reply, failOpen, t3, _) =>
      reply.Unreachable? && failOpen && NoticedAt(conf, charges, id, LocalGlobalKey(charges[j].cfg), t3)
  }

  /** Over the whole run nobody was turned away from a window in which charge `id` had a live slot. */
  ghost predicate Unnoticed(conf: Key -> Config, charges: seq<Charge>, events: seq<Event>, id: nat)
    decreases |events|
  {
    if events == [] then true
    else if events[0].Resume? && events[0].id >= |charges| then true
    else
      && (id < |charges| && !(events[0].Resume? && events[0].id == id) ==> !Notices(conf, charges, id, events[0]))
      && Unnoticed(conf, ChargesAfter(conf, charges, events[0]), events[1..], id)
  }

  lemma LiveSorted(hits: seq<int>, cutoff: int)
    requires Sorted(hits)
    ensures Sorted(Live(hits, cutoff))
  {
    var dead := LiveIsSuffix(hits, cutoff);
  }

  lemma LiveCounts(conf: Key -> Config, charges: seq<Charge>, key: Key, now: int, t: int)
    ensures multiset(LiveIn(conf, charges, key, now))[t]
         == if t > now - conf(key).windowMs then HeldCount(charges, key, t) else 0
  {
    hide Live, HeldCount, HeldIn, Window;
    WindowSorted(charges, key);
    LiveMultiplicity(Window(charges, key), now - conf(key).windowMs, t);
    HeldCounted(charges, key, t);
  }

  lemma LiveWithoutOne(conf: Key -> Config, charges: seq<Charge>, id: nat, key: Key, now: int)
    requires id < |charges| && charges[id].globalHit.None?
    ensures
      var all, less := LiveIn(conf, charges, key, now), LiveIn(conf, DropAt(charges, id), key, now);
      && Sorted(all) && Sorted(less)
      && multiset(all) == multiset(less) + (if HoldsLive(conf, charges[id], key, now) then multiset{charges[id].token} else multiset{})
  {
    hide LiveIn, HeldCount;
    SortedLives(conf, charges, key, now);
    SortedLives(conf, DropAt(charges, id), key, now);
    var all, less := LiveIn(conf, charges, key, now), LiveIn(conf, DropAt(charges, id), key, now);
    var extra := if HoldsLive(conf, charges[id], key, now) then multiset{charges[id].token} else multiset{};
    forall t
      ensures multiset(all)[t] == (multiset(less) + extra)[t]
    {
      LiveCounts(conf, charges, key, now, t);
      LiveCounts(conf, DropAt(charges, id), key, now, t);
      HeldCountRemove(charges, id, key, t);
    }
  }

  lemma SortedLives(conf: Key -> Config, charges: seq<Charge>, key: Key, now: int)
    ensures Sorted(LiveIn(conf, charges, key, now))
  {
    hide Live, Sorted, Window;
    WindowSorted(charges, key);
    LiveSorted(Window(charges, key), now - conf(key).windowMs);
  }

  /** Without the charge a verdict is what it was, unless it was a refusal its live slot had part in. */
  lemma VerdictErased(conf: Key -> Config, charges: seq<Charge>, id: nat, key: Key, now: int)
    requires id < |charges| && charges[id].globalHit.None?
    ensures !NoticedAt(conf, charges, id, key, now) ==>
      VerdictOn(conf, DropAt(charges, id), key, now) == VerdictOn(conf, charges, key, now)
    ensures NoticedAt(conf, charges, id, key, now) && |LiveIn(conf, charges, key, now)| <= conf(key).limit ==>
      VerdictOn(conf, DropAt(charges, id), key, now).Ok?
  {
    LiveWithoutOne(conf, charges, id, key, now);
    hide LiveIn, RetryAfter;
    var all, less := LiveIn(conf, charges, key, now), LiveIn(conf, DropAt(charges, id), key, now);
    if HoldsLive(conf, charges[id], key, now) {
      assert |multiset(all)| == |multiset(less)| + 1;
      assert |all| == |less| + 1;
    } else {
      StableSort.SortedNumbersAreOne(all, less);
    }
  }

  lemma DropUpdate(charges: seq<Charge>, id: nat, j: nat, c: Charge)
    requires id < |charges| && j < |charges| && j != id
    ensures DropAt(charges[j := c], id) == DropAt(charges, id)[Renumbered(id, j) := c]
    ensures DropAt(charges, id)[Renumbered(id, j)] == charges[j]
  {
  }

  lemma DropAppend(charges: seq<Charge>, id: nat, c: Charge)
    requires id < |charges|
    ensures DropAt(charges + [c], id) == DropAt(charges, id) + [c]
  {
  }

  lemma SettledErased(conf: Key -> Config, charges: seq<Charge>, id: nat, j: nat, t3: int, t4: int)
    requires id < |charges| && j < |charges| && j != id && charges[id].globalHit.None?
    requires !NoticedAt(conf, charges, id, LocalGlobalKey(charges[j].cfg), t3)
    ensures Settled(conf, DropAt(charges, id), Renumbered(id, j), t3, t4) == DropAt(Settled(conf, charges, j, t3, t4), id)
  {
    hide DropAt, NoticedAt, VerdictOn, LocalGlobalKey;
    VerdictErased(conf, charges, id, LocalGlobalKey(charges[j].cfg), t3);
    DropUpdate(charges, id, j, Settled(conf, charges, j, t3, t4)[j]);
  }

  lemma StepErased(conf: Key -> Config, charges: seq<Charge>, id: nat, e: Event)
    requires id < |charges| && charges[id].globalHit.None?
    requires e.Resume? ==> e.id < |charges| && e.id != id
    requires !Notices(conf, charges, id, e)
    ensures ChargesAfter(conf, DropAt(charges, id), Shifted(e, id)) == DropAt(ChargesAfter(conf, charges, e), id)
    ensures ClockAfter(conf, DropAt(charges, id), Shifted(e, id)) == ClockAfter(conf, charges, e)
  {
    hide DropAt, NoticedAt, VerdictOn, Settled, LocalGlobalKey;
    if e.Begin? {
      VerdictErased(conf, charges, id, e.key, e.t1);
      var v := VerdictOn(conf, charges, e.key, e.t1);
      var c := Charge(e.key, e.cfg, e.t2, None, if v.Ok? then None else Some(PerIpRefusal(e.cfg, v.retryAfterSec)));
      DropAppend(charges, id, c);
      if v.Ok? && !e.shared {
        SettledErased(conf, charges + [c], id, |charges|, e.t3, e.t4);
      }
    } else {
      var c := charges[e.id];
      DropUpdate(charges, id, e.id, ChargesAfter(conf, charges, e)[e.id]);
      if e.reply.Unreachable? && e.failOpen {
        SettledErased(conf, charges, id, e.id, e.t3, e.t4);
      }
    }
  }

  // ---- the run as charges alone ------------------------------------------------------------------

  /** All of the system that decides outcomes: the charges and how late it is. */
  datatype Tape = Tape(charges: seq<Charge>, clock: int)

  function TapeOf(y: System): Tape {
    Tape(y.charges, y.clock)
  }

  ghost predicate CanNext(conf: Key -> Config, t: Tape, e: Event) {
    match e
    case Begin(key, cfg, _, t1, t2, t3, t4) => Fits(conf, key, cfg) && t.clock <= t1 <= t2 <= t3 <= t4
    case Resume(id, _, _, t3, t4) => id < |t.charges| && t.charges[id].outcome.None? && t.clock <= t3 <= t4
  }

  function TapeNext(conf: Key -> Config, t: Tape, e: Event): Tape
    requires e.Resume? ==> e.id < |t.charges|
  {
    Tape(ChargesAfter(conf, t.charges, e), ClockAfter(conf, t.charges, e))
  }

  ghost predicate CanRun(conf: Key -> Config, t: Tape, events: seq<Event>)
    decreases |events|
  {
    events != [] ==> CanNext(conf, t, events[0]) && CanRun(conf, TapeNext(conf, t, events[0]), events[1..])
  }

  ghost function Ran(conf: Key -> Config, t: Tape, events: seq<Event>): Tape
    requires CanRun(conf, t, events)
    decreases |events|
  {
    if events == [] then t else Ran(conf, TapeNext(conf, t, events[0]), events[1..])
  }

  lemma {:induction false} RunIsATape(conf: Key -> Config, y: System, events: seq<Event>)
    requires Inv(conf, y) && CursorOk(y.lim)
    ensures Possible(conf, y, events) <==> CanRun(conf, TapeOf(y), events)
    ensures Possible(conf, y, events) ==> TapeOf(After(conf, y, events)) == Ran(conf, TapeOf(y), events)
    decreases |events|
  {
    hide Inv, Next, ChargesAfter, ClockAfter, Fits;
    if events != [] && Enabled(conf, y, events[0]) {
      NextFollows(conf, y, events[0]);
      NextInv(conf, y, events[0]);
      RunIsATape(conf, Next(conf, y, events[0]), events[1..]);
    }
  }

  /** No check this segment makes finds more than its key's limit live. */
  ghost predicate ChecksBounded(conf: Key -> Config, t: Tape, e: Event)
    requires e.Resume? ==> e.id < |t.charges|
  {
    match e
    case Begin(key, cfg, _, t1, t2, t3, _) =>
      && |LiveIn(conf, t.charges, key, t1)| <= conf(key).limit
      && (VerdictOn(conf, t.charges, key, t1).Ok? ==>
            |LiveIn(conf, t.charges + [Charge(key, cfg, t2, None, None)], LocalGlobalKey(cfg), t3)|
              <= conf(LocalGlobalKey(cfg)).limit)
    case Resume(j, _, _, t3, _) =>
      |LiveIn(conf, t.charges, LocalGlobalKey(t.charges[j].cfg), t3)| <= conf(LocalGlobalKey(t.charges[j].cfg)).limit
  }

  ghost predicate AllBounded(conf: Key -> Config, t: Tape, events: seq<Event>)
    requires CanRun(conf, t, events)
    decreases |events|
  {
    events != [] ==> ChecksBounded(conf, t, events[0]) && AllBounded(conf, TapeNext(conf, t, events[0]), events[1..])
  }

  lemma StepIsBounded(conf: Key -> Config, y: System, e: Event)
    requires Inv(conf, y) && CursorOk(y.lim) && Enabled(conf, y, e)
    ensures ChecksBounded(conf, TapeOf(y), e)
  {
    hide Inv, LiveIn, LocalGlobalKey, Apply, VerdictOn, Fits;
    if e.Begin? {
      FullAtMost(conf, y, e.key, e.t1);
      OpVerdict(conf, y, Reserve(e.key, e.t1, e.t2));
      if VerdictOn(conf, y.charges, e.key, e.t1).Ok? {
        HeldInv(conf, y, e);
        var held := Apply(conf, y, Reserve(e.key, e.t1, e.t2)).0.(charges := y.charges + [Charge(e.key, e.cfg, e.t2, None, None)]);
        FullAtMost(conf, held, LocalGlobalKey(e.cfg), e.t3);
      }
    } else {
      FullAtMost(conf, y, LocalGlobalKey(y.charges[e.id].cfg), e.t3);
    }
  }

  lemma {:induction false} RunIsBounded(conf: Key -> Config, y: System, events: seq<Event>)
    requires Inv(conf, y) && CursorOk(y.lim) && Possible(conf, y, events)
    ensures CanRun(conf, TapeOf(y), events) && AllBounded(conf, TapeOf(y), events)
    decreases |events|
  {
    hide Inv, Next, ChargesAfter, ClockAfter, Fits, ChecksBounded;
    RunIsATape(conf, y, events);
    if events != [] {
      StepIsBounded(conf, y, events[0]);
      NextFollows(conf, y, events[0]);
      NextInv(conf, y, events[0]);
      RunIsBounded(conf, Next(conf, y, events[0]), events[1..]);
    }
  }

  // ---- resolved charges stay resolved ------------------------------------------------------------

  lemma ChargesGrow(conf: Key -> Config, charges: seq<Charge>, e: Event)
    requires e.Resume? ==> e.id < |charges|
    ensures |ChargesAfter(conf, charges, e)| == |charges| + (if e.Begin? then 1 else 0)
    ensures forall i :: 0 <= i < |charges| && !(e.Resume? && e.id == i) ==> ChargesAfter(conf, charges, e)[i] == charges[i]
    ensures e.Resume? ==>
      var c := ChargesAfter(conf, charges, e)[e.id];
      c.outcome.Some? && (c.outcome.value.Refusal? ==> c.outcome.value.scope != Ip)
  {
    hide VerdictOn;
  }

  lemma StepShape(conf: Key -> Config, t: Tape, e: Event)
    requires CanNext(conf, t, e)
    ensures TapeNext(conf, t, e).charges == ChargesAfter(conf, t.charges, e)
    ensures |TapeNext(conf, t, e).charges| == |t.charges| + (if e.Begin? then 1 else 0)
    ensures e.Resume? ==> e.id < |t.charges|
  {
    ChargesGrow(conf, t.charges, e);
  }

  lemma {:induction false} ResolvedForGood(conf: Key -> Config, t: Tape, events: seq<Event>, i: nat)
    requires CanRun(conf, t, events) && i < |t.charges| && t.charges[i].outcome.Some?
    ensures i < |Ran(conf, t, events).charges| && Ran(conf, t, events).charges[i] == t.charges[i]
    decreases |events|
  {
    hide ChargesAfter, ClockAfter, Fits;
    if events != [] {
      ChargesGrow(conf, t.charges, events[0]);
      ResolvedForGood(conf, TapeNext(conf, t, events[0]), events[1..], i);
    }
  }

  /** The charge has another outcome than `r`, or none yet and `r` is a refusal only a first segment gives. */
  predicate NeverBecomes(c: Charge, r: Result) {
    if c.outcome.Some? then c.outcome.value != r else r.Refusal? && r.scope == Ip
  }

  lemma {:induction false} NeverMeans(conf: Key -> Config, t: Tape, events: seq<Event>, i: nat, r: Result)
    requires CanRun(conf, t, events) && i < |t.charges| && NeverBecomes(t.charges[i], r)
    ensures i < |Ran(conf, t, events).charges| && NeverBecomes(Ran(conf, t, events).charges[i], r)
    decreases |events|
  {
    hide ChargesAfter, ClockAfter, Fits;
    if events != [] {
      ChargesGrow(conf, t.charges, events[0]);
      NeverMeans(conf, TapeNext(conf, t, events[0]), events[1..], i, r);
    }
  }

  // ---- the two runs side by side -----------------------------------------------------------------

  /** `z` is `t` without charge `id`, or the same charges while `id` has not begun. */
  predicate Beside(t: Tape, z: Tape, id: nat) {
    && z.clock <= t.clock
    && z.charges == (if id < |t.charges| then DropAt(t.charges, id) else t.charges)
    && (id < |t.charges| ==> t.charges[id].globalHit.None?)
  }

  predicate IsOwn(t: Tape, e: Event, id: nat) {
    if e.Begin? then |t.charges| == id else e.id == id
  }

  lemma ClockGrows(conf: Key -> Config, charges: seq<Charge>, e: Event, clock: int)
    requires if e.Begin? then clock <= e.t1 <= e.t2 <= e.t3 <= e.t4 else clock <= e.t3 <= e.t4
    ensures clock <= ClockAfter(conf, charges, e)
  {
    hide VerdictOn;
  }

  /** The erased charge's own segment leaves its ceiling slot empty unless it is admitted. */
  lemma OwnHitIsAdmitted(conf: Key -> Config, charges: seq<Charge>, e: Event, id: nat)
    requires if e.Begin? then |charges| == id else e.id == id < |charges| && charges[id].globalHit.None?
    requires ChargesAfter(conf, charges, e)[id].outcome != Some(Admit)
    ensures ChargesAfter(conf, charges, e)[id].globalHit.None?
  {
    hide VerdictOn;
  }

  /** A segment of the erased charge itself leaves the shorter run where it is. */
  lemma OwnStepBeside(conf: Key -> Config, t: Tape, z: Tape, e: Event, id: nat)
    requires Beside(t, z, id) && CanNext(conf, t, e) && IsOwn(t, e, id)
    requires id < |TapeNext(conf, t, e).charges| && TapeNext(conf, t, e).charges[id].outcome != Some(Admit)
    ensures Beside(TapeNext(conf, t, e), z, id)
  {
    hide Fits, ChargesAfter, ClockAfter;
    ChargesGrow(conf, t.charges, e);
    ClockGrows(conf, t.charges, e, t.clock);
    OwnHitIsAdmitted(conf, t.charges, e, id);
    var after := ChargesAfter(conf, t.charges, e);
    if e.Begin? {
      assert DropAt(after, id) == t.charges;
    } else {
      assert DropAt(after, id) == DropAt(t.charges, id);
    }
  }

  lemma ShiftedCanNext(conf: Key -> Config, t: Tape, z: Tape, e: Event, id: nat)
    requires Beside(t, z, id) && CanNext(conf, t, e) && !IsOwn(t, e, id)
    ensures CanNext(conf, z, Shifted(e, id))
    ensures id >= |t.charges| ==> Shifted(e, id) == e
  {
    hide Fits;
  }

  /** A segment of another charge that does not notice keeps the runs side by side. */
  lemma OtherStepBeside(conf: Key -> Config, t: Tape, z: Tape, e: Event, id: nat)
    requires Beside(t, z, id) && CanNext(conf, t, e) && !IsOwn(t, e, id)
    requires id < |t.charges| ==> !Notices(conf, t.charges, id, e)
    ensures CanNext(conf, z, Shifted(e, id))
    ensures Beside(TapeNext(conf, t, e), TapeNext(conf, z, Shifted(e, id)), id)
  {
    hide Fits, ChargesAfter, ClockAfter, Notices, DropAt;
    ShiftedCanNext(conf, t, z, e, id);
    ChargesGrow(conf, t.charges, e);
    if id < |t.charges| {
      StepErased(conf, t.charges, id, e);
    }
  }

  /** A segment that notices: some other charge gets a refusal here which it can never get in the shorter run. */
  lemma NoticingDiverges(conf: Key -> Config, t: Tape, z: Tape, e: Event, id: nat) returns (j: nat, r: Result)
    requires Beside(t, z, id) && CanNext(conf, t, e) && !IsOwn(t, e, id) && ChecksBounded(conf, t, e)
    requires id < |t.charges| && Notices(conf, t.charges, id, e)
    ensures CanNext(conf, z, Shifted(e, id))
    ensures
      var t', z' := TapeNext(conf, t, e), TapeNext(conf, z, Shifted(e, id));
      && j < |t'.charges| && j != id && Renumbered(id, j) < |z'.charges|
      && t'.charges[j].outcome == Some(r) && NeverBecomes(z'.charges[Renumbered(id, j)], r)
  {
    hide Fits, ChargesAfter, ClockAfter, VerdictOn, LiveIn, NoticedAt, LocalGlobalKey, NeverBecomes, DropAt;
    ShiftedCanNext(conf, t, z, e, id);
    ChargesGrow(conf, t.charges, e);
    ChargesGrow(conf, z.charges, Shifted(e, id));
    if e.Begin? {
      j := |t.charges|;
      VerdictErased(conf, t.charges, id, e.key, e.t1);
      NoticedMeansWait(conf, t.charges, id, e.key, e.t1);
      if NoticedAt(conf, t.charges, id, e.key, e.t1) {
        r := BeginRefused(conf, t.charges, z.charges, e);
      } else {
        var held := t.charges + [Charge(e.key, e.cfg, e.t2, None, None)];
        VerdictErased(conf, held, id, LocalGlobalKey(e.cfg), e.t3);
        NoticedMeansWait(conf, held, id, LocalGlobalKey(e.cfg), e.t3);
        DropAppend(t.charges, id, Charge(e.key, e.cfg, e.t2, None, None));
        r := BeginSettled(conf, t.charges, z.charges, e);
      }
    } else {
      j := e.id;
      var g := LocalGlobalKey(t.charges[j].cfg);
      VerdictErased(conf, t.charges, id, g, e.t3);
      NoticedMeansWait(conf, t.charges, id, g, e.t3);
      DropUpdate(t.charges, id, j, t.charges[j]);
      r := ResumeSettled(conf, t.charges, z.charges, e, id);
    }
  }

  lemma NoticedMeansWait(conf: Key -> Config, charges: seq<Charge>, id: nat, key: Key, now: int)
    requires id < |charges|
    ensures NoticedAt(conf, charges, id, key, now) ==> VerdictOn(conf, charges, key, now).Wait?
  {
  }

  lemma BeginRefused(conf: Key -> Config, charges: seq<Charge>, less: seq<Charge>, e: Event) returns (r: Result)
    requires e.Begin? && VerdictOn(conf, charges, e.key, e.t1).Wait? && VerdictOn(conf, less, e.key, e.t1).Ok?
    ensures |ChargesAfter(conf, charges, e)| > |charges| && |ChargesAfter(conf, less, e)| > |less|
    ensures ChargesAfter(conf, charges, e)[|charges|].outcome == Some(r)
    ensures NeverBecomes(ChargesAfter(conf, less, e)[|less|], r)
  {
    hide VerdictOn;
    r := PerIpRefusal(e.cfg, VerdictOn(conf, charges, e.key, e.t1).retryAfterSec);
  }

  lemma BeginSettled(conf: Key -> Config, charges: seq<Charge>, less: seq<Charge>, e: Event) returns (r: Result)
    requires e.Begin? && !e.shared
    requires VerdictOn(conf, charges, e.key, e.t1).Ok? && VerdictOn(conf, less, e.key, e.t1).Ok?
    requires
      var c := Charge(e.key, e.cfg, e.t2, None, None);
      && VerdictOn(conf, charges + [c], LocalGlobalKey(e.cfg), e.t3).Wait?
      && VerdictOn(conf, less + [c], LocalGlobalKey(e.cfg), e.t3).Ok?
    ensures |ChargesAfter(conf, charges, e)| > |charges| && |ChargesAfter(conf, less, e)| > |less|
    ensures ChargesAfter(conf, charges, e)[|charges|].outcome == Some(r)
    ensures NeverBecomes(ChargesAfter(conf, less, e)[|less|], r)
  {
    hide VerdictOn, LocalGlobalKey;
    var c := Charge(e.key, e.cfg, e.t2, None, None);
    r := GlobalRefusal(e.cfg, VerdictOn(conf, charges + [c], LocalGlobalKey(e.cfg), e.t3).retryAfterSec);
  }

  lemma ResumeSettled(conf: Key -> Config, charges: seq<Charge>, less: seq<Charge>, e: Event, id: nat) returns (r: Result)
    requires e.Resume? && e.reply.Unreachable? && e.failOpen && e.id < |charges| && e.id != id
    requires Renumbered(id, e.id) < |less| && less[Renumbered(id, e.id)] == charges[e.id]
    requires VerdictOn(conf, charges, LocalGlobalKey(charges[e.id].cfg), e.t3).Wait?
    requires VerdictOn(conf, less, LocalGlobalKey(charges[e.id].cfg), e.t3).Ok?
    ensures |ChargesAfter(conf, charges, e)| == |charges| && |ChargesAfter(conf, less, Shifted(e, id))| == |less|
    ensures ChargesAfter(conf, charges, e)[e.id].outcome == Some(r)
    ensures NeverBecomes(ChargesAfter(conf, less, Shifted(e, id))[Renumbered(id, e.id)], r)
  {
    hide VerdictOn, LocalGlobalKey;
    var c := charges[e.id];
    r := GlobalRefusal(c.cfg, VerdictOn(conf, charges, LocalGlobalKey(c.cfg), e.t3).retryAfterSec);
  }

  // ---- whole runs --------------------------------------------------------------------------------

  /** The shorter run can happen, and every other charge's outcome and wait in it is what it was. */
  ghost predicate Unchanged(conf: Key -> Config, z: Tape, erased: seq<Event>, charges: seq<Charge>, id: nat)
    requires id < |charges|
  {
    CanRun(conf, z, erased) && Ran(conf, z, erased).charges == DropAt(charges, id)
  }

  lemma ErasedConses(conf: Key -> Config, z: Tape, events: seq<Event>, n: nat, id: nat)
    requires events != [] && CanNext(conf, z, Shifted(events[0], id))
    requires if events[0].Begin? then n != id else events[0].id != id
    ensures
      var e, rest := Shifted(events[0], id), Erase(events[1..], if events[0].Begin? then n + 1 else n, id);
      var erased := Erase(events, n, id);
      && (CanRun(conf, z, erased) <==> CanRun(conf, TapeNext(conf, z, e), rest))
      && (CanRun(conf, z, erased) ==> Ran(conf, z, erased) == Ran(conf, TapeNext(conf, z, e), rest))
  {
    hide TapeNext, CanNext;
    var e, rest := Shifted(events[0], id), Erase(events[1..], if events[0].Begin? then n + 1 else n, id);
    var erased := Erase(events, n, id);
    assert erased == [e] + rest;
    assert erased[0] == e && erased[1..] == rest;
  }

  /** A charge refused at the end was never admitted on the way. */
  lemma NotAdmitted(conf: Key -> Config, t: Tape, events: seq<Event>, id: nat)
    requires CanRun(conf, t, events) && events != []
    requires id < |Ran(conf, t, events).charges| && !Holding(Ran(conf, t, events).charges[id])
    requires (events[0].Resume? ==> events[0].id < |t.charges|) && id < |TapeNext(conf, t, events[0]).charges|
    ensures TapeNext(conf, t, events[0]).charges[id].outcome != Some(Admit)
  {
    StepShape(conf, t, events[0]);
    hide TapeNext, CanNext;
    if TapeNext(conf, t, events[0]).charges[id].outcome == Some(Admit) {
      ResolvedForGood(conf, TapeNext(conf, t, events[0]), events[1..], id);
    }
  }

  lemma Diverged(conf: Key -> Config, t: Tape, z: Tape, events: seq<Event>, erased: seq<Event>, id: nat, j: nat, r: Result)
    requires CanRun(conf, t, events) && CanRun(conf, z, erased) && id < |Ran(conf, t, events).charges|
    requires j < |t.charges| && j != id && t.charges[j].outcome == Some(r)
    requires Renumbered(id, j) < |z.charges| && NeverBecomes(z.charges[Renumbered(id, j)], r)
    ensures Ran(conf, z, erased).charges != DropAt(Ran(conf, t, events).charges, id)
  {
    hide CanRun, Ran, NeverBecomes, DropAt;
    ResolvedForGood(conf, t, events, j);
    NeverMeans(conf, z, erased, Renumbered(id, j), r);
    OneNeverBecomesOther(Ran(conf, t, events).charges, Ran(conf, z, erased).charges, id, j, r);
  }

  lemma NoticedRun(conf: Key -> Config, t: Tape, z: Tape, events: seq<Event>, id: nat)
    requires Beside(t, z, id) && CanRun(conf, t, events) && events != [] && ChecksBounded(conf, t, events[0])
    requires id < |t.charges| && !IsOwn(t, events[0], id) && Notices(conf, t.charges, id, events[0])
    requires id < |Ran(conf, t, events).charges|
    ensures !Unchanged(conf, z, Erase(events, |t.charges|, id), Ran(conf, t, events).charges, id)
  {
    hide TapeNext, CanNext, Notices, NeverBecomes, DropAt, ChecksBounded, Beside, Renumbered;
    var e, rest := events[0], events[1..];
    StepShape(conf, t, e);
    var j, r := NoticingDiverges(conf, t, z, e, id);
    StepShape(conf, z, Shifted(e, id));
    var t', z' := TapeNext(conf, t, e), TapeNext(conf, z, Shifted(e, id));
    ErasedConses(conf, z, events, |t.charges|, id);
    var erased := Erase(rest, if e.Begin? then |t.charges| + 1 else |t.charges|, id);
    if CanRun(conf, z', erased) {
      Diverged(conf, t', z', rest, erased, id, j, r);
    }
  }

  lemma OneNeverBecomesOther(full: seq<Charge>, less: seq<Charge>, id: nat, j: nat, r: Result)
    requires id < |full| && j < |full| && j != id && full[j].outcome == Some(r)
    requires Renumbered(id, j) < |less| && NeverBecomes(less[Renumbered(id, j)], r)
    ensures less != DropAt(full, id)
  {
    DropUpdate(full, id, j, full[j]);
  }

  lemma {:induction false} ErasedRun(conf: Key -> Config, t: Tape, z: Tape, events: seq<Event>, id: nat)
    requires Beside(t, z, id) && CanRun(conf, t, events) && AllBounded(conf, t, events)
    requires id < |Ran(conf, t, events).charges| && !Holding(Ran(conf, t, events).charges[id])
    ensures Unchanged(conf, z, Erase(events, |t.charges|, id), Ran(conf, t, events).charges, id)
       <==> Unnoticed(conf, t.charges, events, id)
    ensures Unnoticed(conf, t.charges, events, id) ==> Ran(conf, z, Erase(events, |t.charges|, id)).clock <= Ran(conf, t, events).clock
    decreases |events|
  {
    hide TapeNext, CanNext, Notices, DropAt, ChecksBounded, ChargesAfter;
    if events != [] {
      var e, rest := events[0], events[1..];
      StepShape(conf, t, e);
      var t' := TapeNext(conf, t, e);
      if IsOwn(t, e, id) {
        NotAdmitted(conf, t, events, id);
        OwnStepBeside(conf, t, z, e, id);
        ErasedRun(conf, t', z, rest, id);
        assert Erase(events, |t.charges|, id) == Erase(rest, |t'.charges|, id);
      } else if id < |t.charges| && Notices(conf, t.charges, id, e) {
        NoticedRun(conf, t, z, events, id);
      } else {
        OtherStepBeside(conf, t, z, e, id);
        ErasedRun(conf, t', TapeNext(conf, z, Shifted(e, id)), rest, id);
        ErasedConses(conf, z, events, |t.charges|, id);
      }
    }
  }

  /** The run without charge `id` can happen, and every other charge's outcome and wait in it is what it was. */
  ghost predicate Invisible(conf: Key -> Config, events: seq<Event>, id: nat)
    requires Possible(conf, EMPTY, events) && id < |After(conf, EMPTY, events).charges|
  {
    && Possible(conf, EMPTY, Erase(events, 0, id))
    && After(conf, EMPTY, Erase(events, 0, id)).charges == DropAt(After(conf, EMPTY, events).charges, id)
  }

  /**
   Over every run, a refused charge made no difference to any other charge exactly when nobody was
   turned away from a window while its slot was live in it.
   */
  lemma ErasureIsInvisibleIff(conf: Key -> Config, events: seq<Event>, id: nat)
    requires Possible(conf, EMPTY, events)
    requires id < |After(conf, EMPTY, events).charges| && !Holding(After(conf, EMPTY, events).charges[id])
    ensures Invisible(conf, events, id) <==> Unnoticed(conf, [], events, id)
    ensures Invisible(conf, events, id) ==>
      After(conf, EMPTY, Erase(events, 0, id)).clock <= After(conf, EMPTY, events).clock
  {
    hide Inv, Unnoticed, Erase, Possible, After, AllBounded, CanRun, Ran;
    EmptyInv(conf);
    var erased := Erase(events, 0, id);
    RunIsATape(conf, EMPTY, events);
    RunIsATape(conf, EMPTY, erased);
    RunIsBounded(conf, EMPTY, events);
    ErasedRun(conf, TapeOf(EMPTY), TapeOf(EMPTY), events, id);
  }

  /** And then every live window is the same too. */
  lemma ErasureKeepsWindows(conf: Key -> Config, events: seq<Event>, id: nat, key: Key)
    requires Possible(conf, EMPTY, events)
    requires id < |After(conf, EMPTY, events).charges| && !Holding(After(conf, EMPTY, events).charges[id])
    requires Unnoticed(conf, [], events, id)
    ensures Invisible(conf, events, id)
    ensures
      var y, z := After(conf, EMPTY, events), After(conf, EMPTY, Erase(events, 0, id));
      var cutoff := y.clock - conf(key).windowMs;
      Live(Hits(z.lim.slots, key), cutoff) == Live(Hits(y.lim.slots, key), cutoff)
  {
    hide Inv, Unnoticed, Erase, Possible, After, Live, Hits, Window, DropAt, Tracks, LedgerOk, Entries;
    ErasureIsInvisibleIff(conf, events, id);
    EmptyInv(conf);
    var y, z := After(conf, EMPTY, events), After(conf, EMPTY, Erase(events, 0, id));
    RunKeeps(conf, EMPTY, events);
    RunKeeps(conf, EMPTY, Erase(events, 0, id));
    InvChargesAt(conf, y, id);
    LiveWithoutOne(conf, y.charges, id, key, y.clock);
    WindowIs(conf, y, key, y.clock);
    WindowIs(conf, z, key, y.clock);
    StableSort.SortedNumbersAreOne(LiveIn(conf, y.charges, key, y.clock), LiveIn(conf, z.charges, key, y.clock));
  }

  lemma WindowIs(conf: Key -> Config, y: System, key: Key, now: int)
    requires Inv(conf, y) && y.clock <= now
    ensures Live(Hits(y.lim.slots, key), now - conf(key).windowMs) == LiveIn(conf, y.charges, key, now)
  {
    InvTracks(conf, y);
    hide Inv, Tracks, LedgerOk, Live, Hits, Window, Entries;
    WindowIsEntries(conf, y, key);
    TracksLater(conf, y.lim, y.ledger, y.clock, now);
    TracksKey(conf, y.lim, y.ledger, now, key);
  }

  // ---- refused before it ever waited ---------------------------------------------------------------

  lemma {:induction false} UnnoticedOnceRefused(conf: Key -> Config, t: Tape, events: seq<Event>, id: nat)
    requires CanRun(conf, t, events) && id < |t.charges| && !Holding(t.charges[id])
    ensures Unnoticed(conf, t.charges, events, id)
    decreases |events|
  {
    hide ChargesAfter, ClockAfter, Fits, VerdictOn;
    if events != [] {
      ChargesGrow(conf, t.charges, events[0]);
      UnnoticedOnceRefused(conf, TapeNext(conf, t, events[0]), events[1..], id);
    }
  }

  /** The segment that begins charge `id`, when `n` charges have begun so far. */
  function BeginOf(events: seq<Event>, n: nat, id: nat): (r: Option<Event>)
    ensures r.Some? ==> r.value.Begin?
    decreases |events|
  {
    if events == [] then None
    else if events[0].Begin? && n == id then Some(events[0])
    else BeginOf(events[1..], if events[0].Begin? then n + 1 else n, id)
  }

  /** Its own budget refused it, or it was charged without an await. */
  predicate RefusedAtOnce(events: seq<Event>, n: nat, id: nat, c: Charge) {
    !Holding(c) && (c.outcome.value.scope == Ip || (BeginOf(events, n, id).Some? && !BeginOf(events, n, id).value.shared))
  }

  lemma {:induction false} UnnoticedWhenRefusedAtOnce(conf: Key -> Config, t: Tape, events: seq<Event>, id: nat)
    requires CanRun(conf, t, events) && |t.charges| <= id < |Ran(conf, t, events).charges|
    requires RefusedAtOnce(events, |t.charges|, id, Ran(conf, t, events).charges[id])
    ensures Unnoticed(conf, t.charges, events, id)
    decreases |events|
  {
    hide Notices, ChargesAfter, TapeNext, CanNext, Fits;
    if events != [] {
      var e, rest := events[0], events[1..];
      StepShape(conf, t, e);
      var t' := TapeNext(conf, t, e);
      if e.Begin? && |t.charges| == id {
        var c, last := t'.charges[id], Ran(conf, t, events).charges[id];
        SyncSettles(conf, t.charges, e);
        if c.outcome.Some? {
          ResolvedForGood(conf, t', rest, id);
          UnnoticedOnceRefused(conf, t', rest, id);
        } else {
          NeverMeans(conf, t', rest, id, last.outcome.value);
        }
      } else {
        UnnoticedWhenRefusedAtOnce(conf, t', rest, id);
      }
    }
  }

  lemma SyncSettles(conf: Key -> Config, charges: seq<Charge>, e: Event)
    requires e.Begin?
    ensures |ChargesAfter(conf, charges, e)| == |charges| + 1
    ensures ChargesAfter(conf, charges, e)[|charges|].outcome.None? ==> e.shared
  {
    hide VerdictOn;
  }

  /**
   A charge refused by its caller's own budget, or charged without an await and refused by either
   budget, leaves no trace: without it every other outcome, wait and live window is the same.
   */
  lemma RefusedLeavesNoTrace(conf: Key -> Config, events: seq<Event>, id: nat, key: Key)
    requires Possible(conf, EMPTY, events) && id < |After(conf, EMPTY, events).charges|
    requires RefusedAtOnce(events, 0, id, After(conf, EMPTY, events).charges[id])
    ensures Invisible(conf, events, id)
    ensures
      var y, z := After(conf, EMPTY, events), After(conf, EMPTY, Erase(events, 0, id));
      var cutoff := y.clock - conf(key).windowMs;
      Live(Hits(z.lim.slots, key), cutoff) == Live(Hits(y.lim.slots, key), cutoff)
  {
    hide Inv, Unnoticed, Erase, Possible, After, CanRun, Ran, BeginOf, Live, Hits;
    EmptyInv(conf);
    RunIsATape(conf, EMPTY, events);
    UnnoticedWhenRefusedAtOnce(conf, TapeOf(EMPTY), events, id);
    ErasureKeepsWindows(conf, events, id, key);
  }

  // ---- refused after its await: it can cost another ------------------------------------------------

  lemma WindowOfNone(key: Key)
    ensures Window([], key) == []
  {
    WindowSorted([], key);
  }

  lemma WindowOfOne(c: Charge)
    requires c.outcome.None? && c.globalHit.None?
    ensures Window([c], c.key) == [c.token]
  {
    assert [c][..0] == [];
    assert HeldIn([c], c.key) == [c.token];
    WindowSorted([c], c.key);
    StableSort.SortedNumbersAreOne(Window([c], c.key), [c.token]);
  }

  lemma OneHeld(conf: Key -> Config, key: Key, cfg: RateLimitConfig)
    requires Fits(conf, key, cfg) && cfg.perIp == 1 && cfg.windowMs >= 1
    ensures VerdictOn(conf, [], key, 0).Ok?
    ensures VerdictOn(conf, [Charge(key, cfg, 0, None, None)], key, 0) == Wait(RetryAfter([0], cfg.windowMs, 0))
  {
    hide Window, LocalGlobalKey, RetryAfter;
    WindowOfNone(key);
    WindowOfOne(Charge(key, cfg, 0, None, None));
    assert Live([0], -cfg.windowMs) == [0];
  }

  /** Two requests of one caller with a single slot: the second is turned away while the first waits. */
  lemma TwoArrive(conf: Key -> Config, key: Key, cfg: RateLimitConfig)
    requires Fits(conf, key, cfg) && cfg.perIp == 1 && cfg.windowMs >= 1
    ensures
      var e, c := Begin(key, cfg, true, 0, 0, 0, 0), Charge(key, cfg, 0, None, None);
      && TapeNext(conf, TapeOf(EMPTY), e) == Tape([c], 0)
      && TapeNext(conf, Tape([c], 0), e)
         == Tape([c, Charge(key, cfg, 0, None, Some(PerIpRefusal(cfg, RetryAfter([0], cfg.windowMs, 0))))], 0)
  {
    hide VerdictOn, LocalGlobalKey, RetryAfter, PerIpRefusal;
    OneHeld(conf, key, cfg);
  }

  /**
   The failing case: one slot, a charge that waits holding it, a second of the same caller turned away
   meanwhile, then the first refused by the shared ceiling. Had the first never come, the second would
   have been let in.
   */
  lemma WaitingChargeCostsAnother(conf: Key -> Config, key: Key, cfg: RateLimitConfig) returns (events: seq<Event>)
    requires Fits(conf, key, cfg) && cfg.perIp == 1 && cfg.windowMs >= 1
    ensures Possible(conf, EMPTY, events) && |After(conf, EMPTY, events).charges| == 2
    ensures
      var y := After(conf, EMPTY, events);
      && y.charges[0].outcome == Some(GlobalRefusal(cfg, 1))
      && !Holding(y.charges[1]) && y.charges[1].outcome.value.scope == Ip
    ensures Possible(conf, EMPTY, Erase(events, 0, 0)) && !Invisible(conf, events, 0)
    ensures After(conf, EMPTY, Erase(events, 0, 0)).charges == [Charge(key, cfg, 0, None, None)]
  {
    var e, last := Begin(key, cfg, true, 0, 0, 0, 0), Resume(0, Refused(1), false, 0, 0);
    events := [e] + ([e] + [last]);
    hide Inv, Fits, Possible, After, CanRun, Ran, GlobalRefusal;
    EmptyInv(conf);
    RunIsATape(conf, EMPTY, events);
    RunIsATape(conf, EMPTY, [e]);
    WaitingRun(conf, key, cfg);
    ErasedFirst(e, last);
  }

  lemma WaitingRun(conf: Key -> Config, key: Key, cfg: RateLimitConfig)
    requires Fits(conf, key, cfg) && cfg.perIp == 1 && cfg.windowMs >= 1
    ensures
      var e, last := Begin(key, cfg, true, 0, 0, 0, 0), Resume(0, Refused(1), false, 0, 0);
      var events, t := [e] + ([e] + [last]), TapeOf(EMPTY);
      && CanRun(conf, t, [e]) && Ran(conf, t, [e]).charges == [Charge(key, cfg, 0, None, None)]
      && CanRun(conf, t, events)
      && Ran(conf, t, events).charges
         == [Charge(key, cfg, 0, None, Some(GlobalRefusal(cfg, 1))),
             Charge(key, cfg, 0, None, Some(PerIpRefusal(cfg, RetryAfter([0], cfg.windowMs, 0))))]
  {
    hide Fits, RetryAfter, CanRun, Ran, TapeNext, GlobalRefusal, PerIpRefusal;
    var e, last := Begin(key, cfg, true, 0, 0, 0, 0), Resume(0, Refused(1), false, 0, 0);
    TwoArrive(conf, key, cfg);
    var c := Charge(key, cfg, 0, None, None);
    var refused := Charge(key, cfg, 0, None, Some(PerIpRefusal(cfg, RetryAfter([0], cfg.windowMs, 0))));
    LastRefused(conf, c, refused);
    RunOne(conf, Tape([c, refused], 0), last);
    RunCons(conf, Tape([c], 0), e, [last]);
    RunCons(conf, TapeOf(EMPTY), e, [e] + [last]);
    RunOne(conf, TapeOf(EMPTY), e);
  }

  lemma LastRefused(conf: Key -> Config, c: Charge, other: Charge)
    requires c.outcome.None?
    ensures TapeNext(conf, Tape([c, other], 0), Resume(0, Refused(1), false, 0, 0)).charges
         == [c.(outcome := Some(GlobalRefusal(c.cfg, 1))), other]
  {
  }

  lemma ErasedFirst(e: Event, last: Event)
    requires e.Begin? && last.Resume? && last.id == 0
    ensures Erase([e] + ([e] + [last]), 0, 0) == [e]
  {
    var events := [e] + ([e] + [last]);
    assert events[1..] == [e] + [last] && ([e] + [last])[1..] == [last] && [last][1..] == [];
    assert Erase([last], 2, 0) == [];
    assert Erase([e] + [last], 1, 0) == [e];
  }

  lemma RunCons(conf: Key -> Config, t: Tape, e: Event, rest: seq<Event>)
    requires CanNext(conf, t, e) && CanRun(conf, TapeNext(conf, t, e), rest)
    ensures CanRun(conf, t, [e] + rest) && Ran(conf, t, [e] + rest) == Ran(conf, TapeNext(conf, t, e), rest)
  {
    assert ([e] + rest)[1..] == rest;
  }

  lemma RunOne(conf: Key -> Config, t: Tape, e: Event)
    requires CanNext(conf, t, e)
    ensures CanRun(conf, t, [e]) && Ran(conf, t, [e]) == TapeNext(conf, t, e)
  {
    RunCons(conf, t, e, []);
    assert [e] + [] == [e];
  }
}
