/**
 In-flight scan coalescing (src/lib/cache.ts:210-423): concurrent scans of one key share a run, the
 run's abort is refcounted over its callers and deferred by a linger window, and every caller is fed
 the run's progress. Each event is one synchronous segment; identity of a run is its number.
 */
module ScanCoalescer {
  import opened Common

  type Key = string
  type Frame = string
  type RunId = nat
  type CallerId = nat

  const INFLIGHT_LINGER_MS := 30_000

  /**
   One shared computation. `aborted` is the instant its controller was aborted, `timer` the due time
   of its linger timer; `evicted` says its settle reaction (or a synchronous throw) has run.
   */
  datatype Run = Run(key: Key, waiters: int, timer: Option<int>, listeners: set<CallerId>, last: Option<Frame>,
                     aborted: Option<int>, settled: bool, evicted: bool)

  /** `Threw`: its factory threw before it could wait. `Left` carries the instant of the caller's abort. */
  datatype Status = Waiting | Left(at: int) | Done | Threw

  /** `latest` is the last frame offered to this caller's sink. */
  datatype Caller = Caller(run: RunId, progress: bool, status: Status, latest: Option<Frame>)

  datatype System = System(inflight: map<Key, RunId>, runs: seq<Run>, callers: seq<Caller>, clock: int)

  const EMPTY := System(map[], [], [], 0)

  datatype Signal = NeverAborts | MayAbort | AlreadyAborted

  /** `Call` carries what its factory does synchronously: the frames it emits, and whether it throws. */
  datatype Event =
    | Call(key: Key, progress: bool, signal: Signal, frames: seq<Frame>, throws: bool, now: int)
    | Abort(caller: CallerId, now: int)
    | Emit(run: RunId, frame: Frame)
    | Settle(run: RunId)
    | Evict(run: RunId)
    | Detach(caller: CallerId)
    | Fire(run: RunId, now: int)

  // ---- the segments ------------------------------------------------------------------------------

  function Now(y: System, e: Event): int {
    match e
    case Call(_, _, _, _, _, now) => now
    case Abort(_, now) => now
    case Fire(_, now) => now
    case _ => y.clock
  }

  function SetRun(y: System, r: RunId, run: Run): System
    requires r < |y.runs|
  {
    y.(runs := y.runs[r := run])
  }

  function Unmapped(y: System, r: RunId): map<Key, RunId>
    requires r < |y.runs|
  {
    var key := y.runs[r].key;
    if key in y.inflight && y.inflight[key] == r then y.inflight - {key} else y.inflight
  }

  predicate IsMapped(y: System, r: RunId)
    requires r < |y.runs|
  {
    y.runs[r].key in y.inflight && y.inflight[y.runs[r].key] == r
  }

  /** The fan-out of one frame: remembered for late joiners, offered to every attached sink. */
  function Emitted(y: System, r: RunId, frame: Frame): System
    requires r < |y.runs|
  {
    y.(runs := y.runs[r := y.runs[r].(last := Some(frame))],
       callers := seq(|y.callers|, (i: int) requires 0 <= i < |y.callers| =>
         if i in y.runs[r].listeners then y.callers[i].(latest := Some(frame)) else y.callers[i]))
  }

  function EmittedAll(y: System, r: RunId, frames: seq<Frame>): (y': System)
    requires r < |y.runs|
    ensures |y'.runs| == |y.runs| && |y'.callers| == |y.callers|
    ensures forall c :: 0 <= c < |y.callers| ==> y'.callers[c].run == y.callers[c].run
    decreases |frames|
  {
    if frames == [] then y else EmittedAll(Emitted(y, r, frames[0]), r, frames[1..])
  }

  /** `evict`: the run is over; stop its countdown and unmap it if it is still the one mapped. */
  function EvictedRun(y: System, r: RunId): System
    requires r < |y.runs|
  {
    y.(inflight := Unmapped(y, r), runs := y.runs[r := y.runs[r].(timer := None, evicted := true)])
  }

  /** `scheduleLingerAbort`: one countdown per run. */
  function Lingering(y: System, r: RunId, now: int): System
    requires r < |y.runs|
  {
    if y.runs[r].timer.Some? then y
    else SetRun(y, r, y.runs[r].(timer := Some(now + INFLIGHT_LINGER_MS)))
  }

  /** `release`: this caller's signal aborted. */
  function ReleasedBy(y: System, c: CallerId, now: int): System
    requires c < |y.callers| && y.callers[c].run < |y.runs|
  {
    if !y.callers[c].status.Waiting? then y
    else
      var r := y.callers[c].run;
      var run := y.runs[r].(waiters := y.runs[r].waiters - 1,
                            listeners := if y.callers[c].progress then y.runs[r].listeners - {c} else y.runs[r].listeners);
      var left := SetRun(y, r, run).(callers := y.callers[c := y.callers[c].(status := Left(now))]);
      if run.waiters <= 0 && IsMapped(left, r) then Lingering(left, r, now) else left
  }

  /** The mapped entry this call would join; an aborted one is not joined. */
  function Joinable(y: System, key: Key): Option<RunId> {
    if key in y.inflight && y.inflight[key] < |y.runs| && y.runs[y.inflight[key]].aborted.None? then Some(y.inflight[key])
    else None
  }

  /** The call up to `waiters += 1`: join the run in flight, or map a fresh one and run the factory. */
  function Attached(y: System, e: Event): (y': System)
    requires e.Call?
    ensures |y'.callers| == |y.callers| + 1 && y'.callers[|y.callers|].run < |y'.runs|
  {
    var c := |y.callers|;
    var sinks: set<CallerId> := if e.progress then {c} else {};
    match Joinable(y, e.key)
    case Some(r) =>
      var run := y.runs[r].(timer := None, listeners := y.runs[r].listeners + sinks, waiters := y.runs[r].waiters + 1);
      var seen := if e.progress then run.last else None;
      SetRun(y, r, run).(callers := y.callers + [Caller(r, e.progress, Waiting, seen)], clock := e.now)
    case None =>
      var r := |y.runs|;
      var created := Run(e.key, 0, None, sinks, None, None, false, false);
      var mapped := System(y.inflight[e.key := r], y.runs + [created], y.callers + [Caller(r, e.progress, Threw, None)], e.now);
      var started := EmittedAll(mapped, r, e.frames);
      if e.throws then EvictedRun(started, r)
      else
        SetRun(started, r, started.runs[r].(waiters := 1))
          .(callers := started.callers[c := started.callers[c].(run := r, status := Waiting)])
  }

  predicate Enabled(y: System, e: Event) {
    y.clock <= Now(y, e) &&
    match e
    case Call(_, _, _, _, _, _) => true
    case Abort(c, _) => c < |y.callers| && y.callers[c].run < |y.runs|
    case Emit(r, _) => r < |y.runs|
    case Settle(r) => r < |y.runs| && !y.runs[r].settled && !y.runs[r].evicted
    case Evict(r) => r < |y.runs| && y.runs[r].settled && !y.runs[r].evicted
    case Detach(c) => c < |y.callers| && y.callers[c].run < |y.runs| && y.runs[y.callers[c].run].settled && y.runs[y.callers[c].run].evicted
    case Fire(r, now) => r < |y.runs| && y.runs[r].timer.Some? && y.runs[r].timer.value <= now
  }

  function Next(y: System, e: Event): System
    requires Enabled(y, e)
  {
    match e
    case Call(_, _, signal, _, throws, now) =>
      var attached := Attached(y, e);
      if signal.AlreadyAborted? then ReleasedBy(attached, |y.callers|, now) else attached
    case Abort(c, now) => ReleasedBy(y, c, now).(clock := now)
    case Emit(r, frame) => Emitted(y, r, frame)
    case Settle(r) => SetRun(y, r, y.runs[r].(settled := true))
    case Evict(r) => EvictedRun(y, r)
    case Detach(c) =>
      if !y.callers[c].status.Waiting? then y
      else
        var r := y.callers[c].run;
        SetRun(y, r, y.runs[r].(listeners := if y.callers[c].progress then y.runs[r].listeners - {c} else y.runs[r].listeners))
          .(callers := y.callers[c := y.callers[c].(status := Done)])
    case Fire(r, now) =>
      var fired := SetRun(y, r, y.runs[r].(timer := None)).(clock := now);
      if y.runs[r].waiters > 0 || !IsMapped(y, r) then fired
      else fired.(inflight := Unmapped(fired, r), runs := fired.runs[r := fired.runs[r].(aborted := Some(now))])
  }

  predicate Possible(y: System, events: seq<Event>)
    decreases |events|
  {
    events != [] ==> Enabled(y, events[0]) && Possible(Next(y, events[0]), events[1..])
  }

  function After(y: System, events: seq<Event>): System
    requires Possible(y, events)
    decreases |events|
  {
    if events == [] then y else After(Next(y, events[0]), events[1..])
  }

  /** Whatever is enabled after a run can come next. */
  lemma {:induction false} RunGoesOn(y: System, events: seq<Event>, e: Event)
    requires Possible(y, events) && Enabled(After(y, events), e)
    ensures Possible(y, events + [e]) && After(y, events + [e]) == Next(After(y, events), e)
    decreases |events|
  {
    hide Next, Enabled;
    if events == [] {
      assert ([] + [e])[1..] == [];
    } else {
      assert (events + [e])[1..] == events[1..] + [e];
      RunGoesOn(Next(y, events[0]), events[1..], e);
    }
  }

  // ---- the invariant -----------------------------------------------------------------------------

  /** Callers counted in `waiters`: joined and not left. A settled caller is never counted down. */
  predicate Counts(c: Caller, r: RunId) {
    c.run == r && (c.status.Waiting? || c.status.Done?)
  }

  function Counted(callers: seq<Caller>, r: RunId): nat {
    if callers == [] then 0
    else Counted(callers[..|callers| - 1], r) + (if Counts(callers[|callers| - 1], r) then 1 else 0)
  }

  predicate Attends(c: Caller, r: RunId) {
    c.run == r && c.progress && (c.status.Waiting? || c.status.Threw?)
  }

  /** The map and the runs agree: what is mapped is live, what is live is mapped. */
  ghost predicate MapOk(y: System) {
    && (forall k :: k in y.inflight ==>
          && y.inflight[k] < |y.runs| && y.runs[y.inflight[k]].key == k
          && y.runs[y.inflight[k]].aborted.None? && !y.runs[y.inflight[k]].evicted)
    && (forall r :: 0 <= r < |y.runs| && y.runs[r].aborted.None? && !y.runs[r].evicted ==> IsMapped(y, r))
  }

  ghost predicate RunOk(y: System, r: RunId)
    requires r < |y.runs|
  {
    var run := y.runs[r];
    && run.waiters == Counted(y.callers, r)
    && (run.timer.Some? <==> IsMapped(y, r) && run.waiters == 0)
    && (run.timer.Some? ==> run.timer.value <= y.clock + INFLIGHT_LINGER_MS)
    && (run.aborted.Some? ==> run.aborted.value <= y.clock)
    && (forall c :: c in run.listeners ==> c < |y.callers| && y.callers[c].run == r)
  }

  ghost predicate CallerOk(y: System, c: CallerId)
    requires c < |y.callers|
  {
    var caller := y.callers[c];
    && caller.run < |y.runs|
    && var run := y.runs[caller.run];
       && (c in run.listeners <==> Attends(caller, caller.run))
       && (Attends(caller, caller.run) ==> caller.latest == run.last)
       && (caller.status.Done? ==> run.evicted)
       && (caller.status.Threw? ==> run.evicted)
       && (caller.status.Left? ==> caller.status.at <= y.clock)
       && (caller.status.Left? && run.timer.Some? ==> caller.status.at + INFLIGHT_LINGER_MS <= run.timer.value)
       && (run.aborted.Some? ==> caller.status.Left? && caller.status.at + INFLIGHT_LINGER_MS <= run.aborted.value)
  }

  ghost predicate Inv(y: System) {
    && MapOk(y)
    && (forall r :: 0 <= r < |y.runs| ==> RunOk(y, r))
    && (forall c :: 0 <= c < |y.callers| ==> CallerOk(y, c))
  }

  // ---- counting callers --------------------------------------------------------------------------

  lemma {:induction false} CountedUpdate(callers: seq<Caller>, c: CallerId, caller: Caller, r: RunId)
    requires c < |callers|
    ensures Counted(callers[c := caller], r) + (if Counts(callers[c], r) then 1 else 0)
         == Counted(callers, r) + (if Counts(caller, r) then 1 else 0)
  {
    hide Counts;
    var n := |callers| - 1;
    if c == n {
      assert callers[c := caller][..n] == callers[..n];
    } else {
      assert callers[c := caller][..n] == callers[..n][c := caller];
      CountedUpdate(callers[..n], c, caller, r);
    }
  }

  lemma CountedAppend(callers: seq<Caller>, caller: Caller, r: RunId)
    ensures Counted(callers + [caller], r) == Counted(callers, r) + (if Counts(caller, r) then 1 else 0)
  {
    assert (callers + [caller])[..|callers|] == callers;
  }

  lemma {:induction false} CountedSame(a: seq<Caller>, b: seq<Caller>, r: RunId)
    requires |a| == |b| && forall c :: 0 <= c < |a| ==> a[c].run == b[c].run && a[c].status == b[c].status
    ensures Counted(a, r) == Counted(b, r)
  {
    if a != [] {
      CountedSame(a[..|a| - 1], b[..|b| - 1], r);
    }
  }

  lemma {:induction false} CountedNone(callers: seq<Caller>, r: RunId, c: CallerId)
    requires Counted(callers, r) == 0 && c < |callers|
    ensures !Counts(callers[c], r)
  {
    hide Counts;
    if c < |callers| - 1 {
      CountedNone(callers[..|callers| - 1], r, c);
    }
  }

  lemma {:induction false} CountedFresh(callers: seq<Caller>, r: RunId)
    requires forall c :: 0 <= c < |callers| ==> callers[c].run != r
    ensures Counted(callers, r) == 0
  {
    if callers != [] {
      CountedFresh(callers[..|callers| - 1], r);
    }
  }

  /** Frames emitted in one go leave what the last of them leaves. */
  lemma {:induction false} LastFrameWins(y: System, r: RunId, frames: seq<Frame>)
    requires r < |y.runs|
    ensures EmittedAll(y, r, frames) == if frames == [] then y else Emitted(y, r, frames[|frames| - 1])
    decreases |frames|
  {
    if frames != [] {
      LastFrameWins(Emitted(y, r, frames[0]), r, frames[1..]);
      if |frames| > 1 {
        var f := frames[|frames| - 1];
        assert Emitted(Emitted(y, r, frames[0]), r, f).callers == Emitted(y, r, f).callers;
        assert Emitted(Emitted(y, r, frames[0]), r, f).runs == Emitted(y, r, f).runs;
      }
    }
  }

  // ---- every segment keeps the invariant ---------------------------------------------------------

  lemma EmitKeeps(y: System, r: RunId, frame: Frame)
    requires Inv(y) && r < |y.runs|
    ensures Inv(Emitted(y, r, frame))
  {
    var y' := Emitted(y, r, frame);
    forall q | 0 <= q < |y'.runs|
      ensures RunOk(y', q)
    {
      assert RunOk(y, q);
      CountedSame(y.callers, y'.callers, q);
    }
    forall c | 0 <= c < |y'.callers|
      ensures CallerOk(y', c)
    {
      assert CallerOk(y, c) && RunOk(y, r);
    }
  }

  lemma SettleKeeps(y: System, r: RunId)
    requires Inv(y) && r < |y.runs|
    ensures Inv(SetRun(y, r, y.runs[r].(settled := true)))
  {
    var y' := SetRun(y, r, y.runs[r].(settled := true));
    forall q | 0 <= q < |y'.runs|
      ensures RunOk(y', q)
    {
      assert RunOk(y, q);
    }
    forall c | 0 <= c < |y'.callers|
      ensures CallerOk(y', c)
    {
      assert CallerOk(y, c);
    }
  }

  lemma EvictKeeps(y: System, r: RunId)
    requires Inv(y) && r < |y.runs|
    ensures Inv(EvictedRun(y, r))
  {
    var y' := EvictedRun(y, r);
    forall q | 0 <= q < |y'.runs|
      ensures RunOk(y', q)
    {
      assert RunOk(y, q);
    }
    forall c | 0 <= c < |y'.callers|
      ensures CallerOk(y', c)
    {
      assert CallerOk(y, c);
    }
  }

  lemma DetachKeeps(y: System, c: CallerId)
    requires Inv(y) && Enabled(y, Detach(c))
    ensures Inv(Next(y, Detach(c)))
  {
    var y' := Next(y, Detach(c));
    if y.callers[c].status.Waiting? {
      forall q | 0 <= q < |y'.runs|
        ensures RunOk(y', q)
      {
        assert RunOk(y, q);
        CountedUpdate(y.callers, c, y'.callers[c], q);
      }
      forall d | 0 <= d < |y'.callers|
        ensures CallerOk(y', d)
      {
        assert CallerOk(y, d) && CallerOk(y, c);
      }
    }
  }

  lemma FireKeeps(y: System, r: RunId, now: int)
    requires Inv(y) && Enabled(y, Fire(r, now))
    ensures Inv(Next(y, Fire(r, now)))
  {
    var y' := Next(y, Fire(r, now));
    assert RunOk(y, r);
    forall q | 0 <= q < |y'.runs|
      ensures RunOk(y', q)
    {
      assert RunOk(y, q);
    }
    forall c | 0 <= c < |y'.callers|
      ensures CallerOk(y', c)
    {
      assert CallerOk(y, c);
      CountedNone(y.callers, r, c);
    }
  }

  lemma ReleaseRunOk(y: System, c: CallerId, now: int, q: RunId)
    requires c < |y.callers| && y.clock <= now && y.callers[c].status.Waiting? && CallerOk(y, c)
    requires q < |y.runs| && RunOk(y, q)
    ensures RunOk(ReleasedBy(y, c, now).(clock := now), q)
  {
    CountedUpdate(y.callers, c, y.callers[c].(status := Left(now)), q);
  }

  lemma ReleaseCallerOk(y: System, c: CallerId, now: int, d: CallerId)
    requires c < |y.callers| && y.clock <= now && y.callers[c].status.Waiting? && CallerOk(y, c)
    requires y.runs[y.callers[c].run].timer.None?
    requires d < |y.callers| && CallerOk(y, d)
    ensures CallerOk(ReleasedBy(y, c, now).(clock := now), d)
  {
  }

  lemma LaterOk(y: System, now: int)
    requires Inv(y) && y.clock <= now
    ensures Inv(y.(clock := now))
  {
    var y' := y.(clock := now);
    forall q | 0 <= q < |y'.runs|
      ensures RunOk(y', q)
    {
      assert RunOk(y, q);
    }
    forall d | 0 <= d < |y'.callers|
      ensures CallerOk(y', d)
    {
      assert CallerOk(y, d);
    }
  }

  /** The map's soundness looks only at keys and at which runs ended. */
  lemma SameFates(y: System, z: System)
    requires MapOk(y) && z.inflight == y.inflight && |z.runs| == |y.runs|
    requires forall r :: 0 <= r < |z.runs| ==>
      z.runs[r].key == y.runs[r].key && z.runs[r].aborted == y.runs[r].aborted && z.runs[r].evicted == y.runs[r].evicted
    ensures MapOk(z)
  {
    forall r | 0 <= r < |z.runs| && z.runs[r].aborted.None? && !z.runs[r].evicted
      ensures IsMapped(z, r)
    {
      assert y.runs[r].aborted.None? && !y.runs[r].evicted;
      assert IsMapped(y, r);
    }
  }

  lemma ReleaseMapOk(y: System, c: CallerId, now: int)
    requires MapOk(y) && c < |y.callers| && y.callers[c].run < |y.runs|
    ensures MapOk(ReleasedBy(y, c, now).(clock := now))
  {
    hide MapOk, IsMapped;
    SameFates(y, ReleasedBy(y, c, now).(clock := now));
  }

  lemma WaitingMeansNoTimer(y: System, c: CallerId)
    requires Inv(y) && c < |y.callers| && y.callers[c].status.Waiting?
    ensures CallerOk(y, c) && y.runs[y.callers[c].run].timer.None?
  {
    assert CallerOk(y, c);
    assert RunOk(y, y.callers[c].run);
    if Counted(y.callers, y.callers[c].run) == 0 {
      CountedNone(y.callers, y.callers[c].run, c);
    }
  }

  lemma ReleaseKeeps(y: System, c: CallerId, now: int)
    requires Inv(y) && c < |y.callers| && y.clock <= now
    ensures y.callers[c].run < |y.runs|
    ensures Inv(ReleasedBy(y, c, now).(clock := now))
  {
    assert CallerOk(y, c);
    if y.callers[c].status.Waiting? {
      WaitingMeansNoTimer(y, c);
      ReleaseMapOk(y, c, now);
      hide RunOk, CallerOk, MapOk;
      var y' := ReleasedBy(y, c, now).(clock := now);
      forall q | 0 <= q < |y'.runs|
        ensures RunOk(y', q)
      {
        ReleaseRunOk(y, c, now, q);
      }
      forall d | 0 <= d < |y'.callers|
        ensures CallerOk(y', d)
      {
        ReleaseCallerOk(y, c, now, d);
      }
    } else {
      LaterOk(y, now);
    }
  }

  lemma JoinKeeps(y: System, e: Event)
    requires Inv(y) && e.Call? && Enabled(y, e) && Joinable(y, e.key).Some?
    ensures Inv(Attached(y, e)) && Attached(y, e).clock == e.now
  {
    var r := Joinable(y, e.key).value;
    var y' := Attached(y, e);
    var c := |y.callers|;
    assert RunOk(y, r);
    forall q | 0 <= q < |y'.runs|
      ensures RunOk(y', q)
    {
      assert RunOk(y, q);
      CountedAppend(y.callers, y'.callers[c], q);
    }
    forall d | 0 <= d < |y'.callers|
      ensures CallerOk(y', d)
    {
      if d < c {
        assert CallerOk(y, d);
      }
    }
  }

  /** The state after a run was started: a fresh record mapped, its caller waiting or thrown out. */
  function Started(y: System, e: Event): System
    requires e.Call?
  {
    var r, c := |y.runs|, |y.callers|;
    var sinks: set<CallerId> := if e.progress then {c} else {};
    var last := if e.frames == [] then None else Some(e.frames[|e.frames| - 1]);
    var seen := if e.progress then last else None;
    System(if e.throws then y.inflight - {e.key} else y.inflight[e.key := r],
           y.runs + [Run(e.key, if e.throws then 0 else 1, None, sinks, last, None, false, e.throws)],
           y.callers + [Caller(r, e.progress, if e.throws then Threw else Waiting, seen)],
           e.now)
  }

  lemma AttachedStarts(y: System, e: Event)
    requires e.Call? && Joinable(y, e.key).None?
    ensures Attached(y, e) == Started(y, e)
  {
    var r, c := |y.runs|, |y.callers|;
    var sinks: set<CallerId> := if e.progress then {c} else {};
    var created := Run(e.key, 0, None, sinks, None, None, false, false);
    var mapped := System(y.inflight[e.key := r], y.runs + [created], y.callers + [Caller(r, e.progress, Threw, None)], e.now);
    LastFrameWins(mapped, r, e.frames);
    assert Attached(y, e).runs == Started(y, e).runs;
    assert Attached(y, e).callers == Started(y, e).callers;
    assert Attached(y, e).inflight == Started(y, e).inflight;
  }

  lemma StartedRunOk(y: System, e: Event, q: RunId)
    requires Inv(y) && e.Call? && Enabled(y, e) && e.key !in y.inflight && q <= |y.runs|
    ensures RunOk(Started(y, e), q)
  {
    var y' := Started(y, e);
    var c := |y.callers|;
    CountedAppend(y.callers, y'.callers[c], q);
    if q < |y.runs| {
      assert RunOk(y, q);
    } else {
      forall d | 0 <= d < c
        ensures y.callers[d].run != q
      {
        assert CallerOk(y, d);
      }
      CountedFresh(y.callers, q);
    }
  }

  lemma StartKeeps(y: System, e: Event)
    requires Inv(y) && e.Call? && Enabled(y, e) && Joinable(y, e.key).None?
    ensures Inv(Attached(y, e)) && Attached(y, e).clock == e.now
  {
    hide RunOk, Attached, Emitted, EmittedAll;
    AttachedStarts(y, e);
    var y' := Started(y, e);
    assert e.key !in y.inflight;
    forall q | 0 <= q < |y'.runs|
      ensures RunOk(y', q)
    {
      StartedRunOk(y, e, q);
    }
    forall d | 0 <= d < |y'.callers|
      ensures CallerOk(y', d)
    {
      if d < |y.callers| {
        assert CallerOk(y, d);
      }
    }
  }

  lemma NextKeeps(y: System, e: Event)
    requires Inv(y) && Enabled(y, e)
    ensures Inv(Next(y, e))
  {
    hide RunOk, CallerOk, MapOk, Attached, Emitted, EvictedRun, ReleasedBy;
    match e
    case Call(key, _, signal, _, _, now) =>
      if Joinable(y, key).Some? {
        JoinKeeps(y, e);
      } else {
        StartKeeps(y, e);
      }
      if signal.AlreadyAborted? {
        var attached := Attached(y, e);
        ReleaseKeeps(attached, |y.callers|, now);
        ReleaseKeepsClock(attached, |y.callers|, now);
      }
    case Abort(c, now) => ReleaseKeeps(y, c, now);
    case Emit(r, frame) => EmitKeeps(y, r, frame);
    case Settle(r) => SettleKeeps(y, r);
    case Evict(r) => EvictKeeps(y, r);
    case Detach(c) => DetachKeeps(y, c);
    case Fire(r, now) => FireKeeps(y, r, now);
  }

  lemma ReleaseKeepsClock(y: System, c: CallerId, now: int)
    requires c < |y.callers| && y.callers[c].run < |y.runs|
    ensures ReleasedBy(y, c, now).clock == y.clock
  {
  }

  lemma {:induction false} RunKeeps(y: System, events: seq<Event>)
    requires Inv(y) && Possible(y, events)
    ensures Inv(After(y, events))
    decreases |events|
  {
    hide Inv, Next, Enabled;
    if events != [] {
      NextKeeps(y, events[0]);
      RunKeeps(Next(y, events[0]), events[1..]);
    }
  }

  lemma EmptyInv()
    ensures Inv(EMPTY)
  {
  }

  lemma Reachable(events: seq<Event>)
    requires Possible(EMPTY, events)
    ensures Inv(After(EMPTY, events))
  {
    EmptyInv();
    RunKeeps(EMPTY, events);
  }

  // ---- the theorems ------------------------------------------------------------------------------

  /** Live: not aborted, and its settle reaction has not run. */
  predicate IsLive(y: System, r: RunId)
    requires r < |y.runs|
  {
    y.runs[r].aborted.None? && !y.runs[r].evicted
  }

  predicate Watches(c: Caller, r: RunId) {
    c.run == r && c.status.Waiting?
  }

  /** At most one live run per key, and what the map holds is always live: the aborted-entry backstop never triggers. */
  lemma OneLiveRunPerKey(events: seq<Event>, a: RunId, b: RunId, key: Key)
    requires Possible(EMPTY, events)
    requires var y := After(EMPTY, events); a < |y.runs| && b < |y.runs| && y.runs[a].key == y.runs[b].key
    ensures var y := After(EMPTY, events);
            && (IsLive(y, a) && IsLive(y, b) ==> a == b)
            && (key in y.inflight ==> Joinable(y, key) == Some(y.inflight[key]) && IsLive(y, y.inflight[key]))
  {
    Reachable(events);
  }

  /**
   A run is aborted only when nobody is left: each of its callers aborted, every one of them at least
   the linger window before the run did.
   */
  lemma AbortedOnlyAfterEveryoneLeft(events: seq<Event>, r: RunId, c: CallerId)
    requires Possible(EMPTY, events)
    requires var y := After(EMPTY, events);
             r < |y.runs| && y.runs[r].aborted.Some? && c < |y.callers| && y.callers[c].run == r
    ensures var y := After(EMPTY, events);
            y.callers[c].status.Left? && y.callers[c].status.at + INFLIGHT_LINGER_MS <= y.runs[r].aborted.value
  {
    Reachable(events);
    assert CallerOk(After(EMPTY, events), c);
  }

  /** A mapped run nobody watches is always counting down, with no more than the linger window to go. */
  lemma UnwatchedRunCountsDown(events: seq<Event>, r: RunId)
    requires Possible(EMPTY, events)
    requires var y := After(EMPTY, events); r < |y.runs| && IsMapped(y, r)
    ensures var y := After(EMPTY, events);
            var watched := exists c :: 0 <= c < |y.callers| && Watches(y.callers[c], r);
            && (!watched <==> y.runs[r].timer.Some?)
            && (y.runs[r].timer.Some? ==> y.runs[r].timer.value <= y.clock + INFLIGHT_LINGER_MS)
  {
    Reachable(events);
    var y := After(EMPTY, events);
    assert RunOk(y, r);
    assert !y.runs[r].evicted;
    if Counted(y.callers, r) == 0 {
      forall c | 0 <= c < |y.callers|
        ensures !Watches(y.callers[c], r)
      {
        CountedNone(y.callers, r, c);
      }
    } else {
      var c := CountedSome(y.callers, r);
      assert CallerOk(y, c);
      assert Watches(y.callers[c], r);
    }
  }

  lemma {:induction false} CountedSome(callers: seq<Caller>, r: RunId) returns (c: CallerId)
    requires Counted(callers, r) > 0
    ensures c < |callers| && Counts(callers[c], r)
  {
    c := |callers| - 1;
    if !Counts(callers[c], r) {
      c := CountedSome(callers[..c], r);
    }
  }

  /** A linger timer that fires always finds its run mapped and unwatched: firing aborts it, every time. */
  lemma FiringAlwaysAborts(events: seq<Event>, r: RunId, now: int)
    requires Possible(EMPTY, events) && Enabled(After(EMPTY, events), Fire(r, now))
    ensures var y := After(EMPTY, events);
            var y' := Next(y, Fire(r, now));
            && y'.runs[r].aborted == Some(now) && !IsMapped(y', r) && y'.runs[r].timer.None?
            && y'.inflight == y.inflight - {y.runs[r].key}
  {
    Reachable(events);
    assert RunOk(After(EMPTY, events), r);
  }

  /** Every attached sink, early or late, has seen the run's latest frame; one that left hears nothing more. */
  lemma EverySinkIsCurrent(events: seq<Event>, c: CallerId)
    requires Possible(EMPTY, events)
    requires c < |After(EMPTY, events).callers|
    ensures var y := After(EMPTY, events);
            var caller := y.callers[c];
            && caller.run < |y.runs|
            && (caller.progress && caller.status.Waiting? ==> caller.latest == y.runs[caller.run].last)
            && (caller.status.Left? || caller.status.Done? ==> c !in y.runs[caller.run].listeners)
  {
    Reachable(events);
    assert CallerOk(After(EMPTY, events), c);
  }

  /** An old run settling never unmaps a newer run, of its own key or any other. */
  lemma SettlingNeverEvictsANewerRun(y: System, r: RunId, key: Key)
    requires Enabled(y, Evict(r)) && key in y.inflight && y.inflight[key] != r
    ensures var y' := Next(y, Evict(r)); key in y'.inflight && y'.inflight[key] == y.inflight[key]
  {
  }

  /** A call starts a run exactly when no live run of its key exists; otherwise it watches that one. */
  lemma CallsJoinTheLiveRun(events: seq<Event>, e: Event)
    requires Possible(EMPTY, events) && e.Call? && Enabled(After(EMPTY, events), e)
    ensures var y := After(EMPTY, events);
            var y' := Next(y, e);
            var live := exists r :: 0 <= r < |y.runs| && y.runs[r].key == e.key && IsLive(y, r);
            && |y'.callers| == |y.callers| + 1
            && |y'.runs| == |y.runs| + (if live then 0 else 1)
            && (live ==> e.key in y.inflight && y'.callers[|y.callers|].run == y.inflight[e.key])
  {
    hide CallerOk, RunOk, Emitted, EmittedAll, Counted, Possible, After;
    Reachable(events);
    var y := After(EMPTY, events);
    var found := Joinable(y, e.key);
    if found.Some? {
      assert IsLive(y, found.value) && y.runs[found.value].key == e.key;
    }
    if exists r :: 0 <= r < |y.runs| && y.runs[r].key == e.key && IsLive(y, r) {
      var r :| 0 <= r < |y.runs| && y.runs[r].key == e.key && IsLive(y, r);
      assert IsMapped(y, r);
    }
  }

  // ---- what each event does ------------------------------------------------------------------------

  /** Somebody other than `c` still watches run `r`. */
  predicate OthersWatch(y: System, r: RunId, c: CallerId) {
    exists d :: 0 <= d < |y.callers| && d != c && Watches(y.callers[d], r)
  }

  /** On a run that is not over, the count is one when the only watcher is `c`, and more when there is another. */
  lemma LastWatcher(y: System, r: RunId, c: CallerId)
    requires Inv(y) && c < |y.callers| && r < |y.runs| && Watches(y.callers[c], r) && !y.runs[r].evicted
    ensures y.runs[r].waiters >= 1
    ensures y.runs[r].waiters == 1 <==> !OthersWatch(y, r, c)
  {
    assert RunOk(y, r);
    hide Inv, RunOk;
    var gone := y.callers[c := y.callers[c].(status := Left(0))];
    CountedUpdate(y.callers, c, gone[c], r);
    if Counted(gone, r) == 0 {
      forall d | 0 <= d < |y.callers| && d != c
        ensures !Watches(y.callers[d], r)
      {
        CountedNone(gone, r, d);
        assert gone[d] == y.callers[d];
      }
    } else {
      var d := CountedSome(gone, r);
      CallerIsOk(y, d);
      assert Watches(y.callers[d], r);
    }
  }

  lemma CallerIsOk(y: System, c: CallerId)
    requires Inv(y) && c < |y.callers|
    ensures CallerOk(y, c)
  {
  }

  /**
   Over every run, what a waiting caller's abort does: it has left at that instant, hears nothing more
   and no longer counts; if nobody else watches its mapped run the countdown starts, due a linger window
   from now; no other caller, run or mapping moves. Any other caller's abort does nothing.
   */
  lemma AbortGivesUpItsShare(events: seq<Event>, c: CallerId, now: int)
    requires Possible(EMPTY, events) && Enabled(After(EMPTY, events), Abort(c, now))
    ensures
      var y := After(EMPTY, events);
      var y' := Next(y, Abort(c, now));
      var r := y.callers[c].run;
      && y'.inflight == y.inflight && |y'.runs| == |y.runs| && |y'.callers| == |y.callers|
      && (forall q :: 0 <= q < |y.runs| && q != r ==> y'.runs[q] == y.runs[q])
      && (forall d :: 0 <= d < |y.callers| && d != c ==> y'.callers[d] == y.callers[d])
      && (if y.callers[c].status.Waiting? then
            && y'.callers[c].status == Left(now) && c !in y'.runs[r].listeners
            && y'.runs[r].listeners == y.runs[r].listeners - {c}
            && y'.runs[r].waiters == y.runs[r].waiters - 1
            && y'.runs[r].timer == (if IsMapped(y, r) && !OthersWatch(y, r, c) then Some(now + INFLIGHT_LINGER_MS) else None)
          else y'.callers[c] == y.callers[c] && y'.runs[r] == y.runs[r])
  {
    hide Possible, After, RunOk;
    Reachable(events);
    var y := After(EMPTY, events);
    var r := y.callers[c].run;
    CallerIsOk(y, c);
    if y.callers[c].status.Waiting? {
      WaitingMeansNoTimer(y, c);
      if IsMapped(y, r) {
        LastWatcher(y, r, c);
      }
    }
  }

  /** Caller `c` left run `r` a linger window before `due`. */
  predicate LeftFor(y: System, c: CallerId, r: RunId, due: int) {
    c < |y.callers| && y.callers[c].run == r && y.callers[c].status.Left? && y.callers[c].status.at + INFLIGHT_LINGER_MS == due
  }

  ghost predicate TimersDue(y: System) {
    forall r :: 0 <= r < |y.runs| && y.runs[r].timer.Some? ==> exists c :: LeftFor(y, c, r, y.runs[r].timer.value)
  }

  /** Timers that were already there stay due to whoever left then; a new one is due to `c`, who just left. */
  lemma TimersStayDue(y: System, z: System, c: CallerId)
    requires TimersDue(y) && |y.runs| <= |z.runs| && |y.callers| <= |z.callers|
    requires forall d :: 0 <= d < |y.callers| && y.callers[d].status.Left? ==>
      z.callers[d].run == y.callers[d].run && z.callers[d].status == y.callers[d].status
    requires forall r :: 0 <= r < |z.runs| && z.runs[r].timer.Some? ==>
      (r < |y.runs| && z.runs[r].timer == y.runs[r].timer) || LeftFor(z, c, r, z.runs[r].timer.value)
    ensures TimersDue(z)
  {
    forall r | 0 <= r < |z.runs| && z.runs[r].timer.Some?
      ensures exists c :: LeftFor(z, c, r, z.runs[r].timer.value)
    {
      if r < |y.runs| && z.runs[r].timer == y.runs[r].timer {
        var d :| LeftFor(y, d, r, y.runs[r].timer.value);
        assert LeftFor(z, d, r, z.runs[r].timer.value);
      }
    }
  }

  lemma AttachKeepsDue(y: System, e: Event)
    requires TimersDue(y) && e.Call?
    ensures TimersDue(Attached(y, e))
  {
    hide Attached, TimersDue;
    if Joinable(y, e.key).Some? {
      JoinedTimers(y, e);
    } else {
      AttachedStarts(y, e);
    }
    TimersStayDue(y, Attached(y, e), 0);
  }

  lemma JoinedTimers(y: System, e: Event)
    requires e.Call? && Joinable(y, e.key).Some?
    ensures
      var z := Attached(y, e);
      && |z.runs| == |y.runs| && |z.callers| == |y.callers| + 1 && z.callers[..|y.callers|] == y.callers
      && (forall d :: 0 <= d < |y.callers| ==> z.callers[d] == y.callers[d])
      && forall r :: 0 <= r < |z.runs| && z.runs[r].timer.Some? ==> z.runs[r].timer == y.runs[r].timer
  {
  }

  lemma NextKeepsDue(y: System, e: Event)
    requires Inv(y) && TimersDue(y) && Enabled(y, e)
    ensures TimersDue(Next(y, e))
  {
    hide Attached, Emitted, TimersDue, Inv;
    match e
    case Call(_, _, signal, _, _, now) =>
      AttachKeepsDue(y, e);
      var attached := Attached(y, e);
      if signal.AlreadyAborted? {
        TimersStayDue(attached, ReleasedBy(attached, |y.callers|, now), |y.callers|);
      }
    case Abort(c, _) =>
      TimersStayDue(y, Next(y, e), c);
    case Emit(r, frame) =>
      EmitKeepsTimers(y, r, frame);
      TimersStayDue(y, Next(y, e), 0);
    case _ =>
      TimersStayDue(y, Next(y, e), 0);
  }

  lemma EmitKeepsTimers(y: System, r: RunId, frame: Frame)
    requires r < |y.runs|
    ensures
      var z := Emitted(y, r, frame);
      && |z.runs| == |y.runs| && |z.callers| == |y.callers|
      && (forall q :: 0 <= q < |y.runs| ==> z.runs[q].timer == y.runs[q].timer)
      && (forall d :: 0 <= d < |y.callers| ==> z.callers[d].run == y.callers[d].run && z.callers[d].status == y.callers[d].status)
  {
  }

  lemma {:induction false} RunKeepsDue(y: System, events: seq<Event>)
    requires Inv(y) && TimersDue(y) && Possible(y, events)
    ensures TimersDue(After(y, events))
    decreases |events|
  {
    hide Inv, Next, Enabled, TimersDue;
    if events != [] {
      NextKeeps(y, events[0]);
      NextKeepsDue(y, events[0]);
      RunKeepsDue(Next(y, events[0]), events[1..]);
    }
  }

  /**
   Over every run, an abandoned run is always on its way out: when every caller of a mapped run has
   aborted, its timer is due exactly a linger window after the last of them left.
   */
  lemma AbandonedRunIsDue(events: seq<Event>, r: RunId)
    requires Possible(EMPTY, events)
    requires
      var y := After(EMPTY, events);
      r < |y.runs| && IsMapped(y, r) && forall c :: 0 <= c < |y.callers| && y.callers[c].run == r ==> y.callers[c].status.Left?
    ensures
      var y := After(EMPTY, events);
      && y.runs[r].timer.Some?
      && (forall c :: 0 <= c < |y.callers| && y.callers[c].run == r ==>
            y.callers[c].status.at + INFLIGHT_LINGER_MS <= y.runs[r].timer.value)
      && exists c :: LeftFor(y, c, r, y.runs[r].timer.value)
  {
    hide Possible, After;
    UnwatchedRunCountsDown(events, r);
    Reachable(events);
    EmptyInv();
    RunKeepsDue(EMPTY, events);
    var y := After(EMPTY, events);
    assert forall c :: 0 <= c < |y.callers| && y.callers[c].run == r ==> CallerOk(y, c);
  }

  /**
   Over every run, what becomes of a call: it throws only if it had to start a run whose factory throws,
   and then nothing is mapped; otherwise it watches the mapped run of its key, or has left at once if
   its signal had already aborted, and its sink starts from the latest frame there is.
   */
  lemma CallIsServed(events: seq<Event>, e: Event)
    requires Possible(EMPTY, events) && e.Call? && Enabled(After(EMPTY, events), e)
    ensures
      var y := After(EMPTY, events);
      var y' := Next(y, e);
      var c := |y.callers|;
      var live := exists r :: 0 <= r < |y.runs| && y.runs[r].key == e.key && IsLive(y, r);
      && |y'.callers| == c + 1 && y'.callers[c].run < |y'.runs|
      && y'.callers[c].status
         == (if !live && e.throws then Threw else if e.signal.AlreadyAborted? then Left(e.now) else Waiting)
      && (e.key in y'.inflight <==> live || !e.throws)
      && (e.key in y'.inflight ==> y'.callers[c].run == y'.inflight[e.key])
      && y'.callers[c].latest
         == (if !e.progress then None
             else if live then LastOf(y, y'.callers[c].run)
             else if e.frames == [] then None else Some(e.frames[|e.frames| - 1]))
  {
    hide CallerOk, RunOk, Emitted, EmittedAll, Counted, Possible, After, Attached, Inv;
    Reachable(events);
    CallsJoinTheLiveRun(events, e);
    var y := After(EMPTY, events);
    LiveIsJoinable(y, e.key);
    if Joinable(y, e.key).Some? {
      JoinedCall(y, e);
    } else {
      AttachedStarts(y, e);
      NotJoinableIsUnmapped(y, e.key);
    }
  }

  function LastOf(y: System, r: RunId): Option<Frame> {
    if r < |y.runs| then y.runs[r].last else None
  }

  lemma LiveIsJoinable(y: System, key: Key)
    requires Inv(y)
    ensures Joinable(y, key).Some? <==> exists r :: 0 <= r < |y.runs| && y.runs[r].key == key && IsLive(y, r)
  {
    hide CallerOk, RunOk;
    if Joinable(y, key).Some? {
      assert IsLive(y, Joinable(y, key).value);
    }
    if r :| 0 <= r < |y.runs| && y.runs[r].key == key && IsLive(y, r) {
      assert IsMapped(y, r);
    }
  }

  lemma NotJoinableIsUnmapped(y: System, key: Key)
    requires Inv(y) && Joinable(y, key).None?
    ensures key !in y.inflight
  {
  }

  lemma JoinedCall(y: System, e: Event)
    requires e.Call? && Joinable(y, e.key).Some?
    ensures
      var r := Joinable(y, e.key).value;
      var z := Attached(y, e);
      && z.inflight == y.inflight && |z.runs| == |y.runs| && z.runs[r].waiters == y.runs[r].waiters + 1
      && z.callers == y.callers + [Caller(r, e.progress, Waiting, if e.progress then y.runs[r].last else None)]
  {
  }

  /** Over every run, a frame reaches every waiting sink of its run and no other, and is kept for joiners. */
  lemma EmitReaches(events: seq<Event>, r: RunId, frame: Frame, c: CallerId)
    requires Possible(EMPTY, events) && Enabled(After(EMPTY, events), Emit(r, frame)) && c < |After(EMPTY, events).callers|
    ensures
      var y := After(EMPTY, events);
      var y' := Next(y, Emit(r, frame));
      && |y'.callers| == |y.callers| && |y'.runs| == |y.runs| && y'.runs[r] == y.runs[r].(last := Some(frame))
      && (forall q :: 0 <= q < |y.runs| && q != r ==> y'.runs[q] == y.runs[q])
      && y'.callers[c]
         == (if Attends(y.callers[c], r) then y.callers[c].(latest := Some(frame)) else y.callers[c])
  {
    hide Possible, After;
    Reachable(events);
    var y := After(EMPTY, events);
    assert CallerOk(y, c) && RunOk(y, r);
  }

  /** Over every run, a settled run leaves the map and its countdown stops, so the next call of its key starts afresh. */
  lemma EvictUnmaps(events: seq<Event>, r: RunId)
    requires Possible(EMPTY, events) && Enabled(After(EMPTY, events), Evict(r))
    ensures
      var y := After(EMPTY, events);
      var y' := Next(y, Evict(r));
      && y'.callers == y.callers && y'.runs == y.runs[r := y.runs[r].(timer := None, evicted := true)]
      && !IsMapped(y', r) && (IsMapped(y, r) ==> Joinable(y', y.runs[r].key).None?)
      && (forall k :: k in y'.inflight <==> k in y.inflight && y.inflight[k] != r)
  {
    hide Possible, After;
    Reachable(events);
    var y := After(EMPTY, events);
    forall k | k in y.inflight && y.inflight[k] == r
      ensures k == y.runs[r].key
    {
    }
  }

  /** A run settles once, and settling is all its eviction waits for. */
  lemma SettlingLeadsToEviction(events: seq<Event>, r: RunId)
    requires Possible(EMPTY, events) && Enabled(After(EMPTY, events), Settle(r))
    ensures
      var y := After(EMPTY, events);
      var y' := Next(y, Settle(r));
      && Enabled(y', Evict(r)) && !Enabled(y', Settle(r))
      && y'.callers == y.callers && y'.inflight == y.inflight && y'.runs[r].(settled := false) == y.runs[r]
  {
    hide Possible, After;
  }

  /** A settled caller is done and hears nothing more, while the count it held stays up. */
  lemma DetachKeepsTheCount(events: seq<Event>, c: CallerId)
    requires Possible(EMPTY, events) && Enabled(After(EMPTY, events), Detach(c))
    ensures
      var y := After(EMPTY, events);
      var y' := Next(y, Detach(c));
      var r := y.callers[c].run;
      && y'.inflight == y.inflight && |y'.runs| == |y.runs|
      && y'.callers == y.callers[c := y.callers[c].(status := if y.callers[c].status.Waiting? then Done else y.callers[c].status)]
      && (forall q :: 0 <= q < |y.runs| && q != r ==> y'.runs[q] == y.runs[q])
      && y'.runs[r] == y.runs[r].(listeners := y'.runs[r].listeners)
      && (y.callers[c].status.Waiting? ==> y'.runs[r].listeners == y.runs[r].listeners - {c})
  {
    hide Possible, After;
    Reachable(events);
    assert CallerOk(After(EMPTY, events), c);
  }

  // ---- the module's state, updated in place --------------------------------------------------------

  class Coalescer {
    var inflightScans: map<Key, RunId>
    var runs: seq<Run>
    var callers: seq<Caller>
    ghost var clock: int

    ghost function View(): System
      reads this
    {
      System(inflightScans, runs, callers, clock)
    }

    constructor ()
      ensures View() == EMPTY
    {
      inflightScans, runs, callers, clock := map[], [], [], 0;
    }

    method CancelLinger(r: RunId)
      requires r < |runs|
      modifies this`runs
      ensures runs == old(runs)[r := old(runs)[r].(timer := None)]
    {
      if runs[r].timer == None {
        assert runs[r] == runs[r].(timer := None);
        return;
      }
      runs := runs[r := runs[r].(timer := None)];
    }

    method AbortAndEvict(r: RunId, now: int)
      requires r < |runs|
      modifies this`runs, this`inflightScans
      ensures inflightScans == Unmapped(old(View()), r)
      ensures runs == old(runs)[r := old(runs)[r].(timer := None, aborted := Some(now))]
    {
      CancelLinger(r);
      if runs[r].key in inflightScans && inflightScans[runs[r].key] == r {
        inflightScans := inflightScans - {runs[r].key};
      }
      runs := runs[r := runs[r].(aborted := Some(now))];
    }

    method ScheduleLingerAbort(r: RunId, now: int)
      requires r < |runs|
      modifies this`runs
      ensures View() == Lingering(old(View()), r, now)
    {
      if runs[r].timer != None {
        return;
      }
      runs := runs[r := runs[r].(timer := Some(now + INFLIGHT_LINGER_MS))];
    }

    method Fire(r: RunId, now: int)
      requires Enabled(View(), Event.Fire(r, now))
      modifies this
      ensures View() == Next(old(View()), Event.Fire(r, now))
    {
      clock := now;
      runs := runs[r := runs[r].(timer := None)];
      if runs[r].waiters > 0 || runs[r].key !in inflightScans || inflightScans[runs[r].key] != r {
        return;
      }
      AbortAndEvict(r, now);
    }

    method Evict(r: RunId)
      requires r < |runs|
      modifies this`runs, this`inflightScans
      ensures View() == EvictedRun(old(View()), r)
    {
      CancelLinger(r);
      if runs[r].key in inflightScans && inflightScans[runs[r].key] == r {
        inflightScans := inflightScans - {runs[r].key};
      }
      runs := runs[r := runs[r].(evicted := true)];
    }

    method Emit(r: RunId, frame: Frame)
      requires r < |runs|
      requires forall c :: c in runs[r].listeners ==> c < |callers|
      modifies this`runs, this`callers
      ensures View() == Emitted(old(View()), r, frame)
    {
      runs := runs[r := runs[r].(last := Some(frame))];
      var sinks := runs[r].listeners;
      while sinks != {}
        invariant runs == old(runs)[r := old(runs)[r].(last := Some(frame))]
        invariant sinks <= runs[r].listeners
        invariant |callers| == |old(callers)|
        invariant forall c :: 0 <= c < |callers| ==>
          callers[c] == if c in runs[r].listeners - sinks then old(callers)[c].(latest := Some(frame)) else old(callers)[c]
        decreases sinks
      {
        var c :| c in sinks;
        callers := callers[c := callers[c].(latest := Some(frame))];
        sinks := sinks - {c};
      }
    }

    method Release(c: CallerId, now: int)
      requires c < |callers| && callers[c].run < |runs|
      modifies this`runs, this`callers
      ensures View() == ReleasedBy(old(View()), c, now)
    {
      if !callers[c].status.Waiting? {
        return;
      }
      var r := callers[c].run;
      callers := callers[c := callers[c].(status := Left(now))];
      var run := runs[r].(waiters := runs[r].waiters - 1);
      if callers[c].progress {
        run := run.(listeners := run.listeners - {c});
      }
      runs := runs[r := run];
      if run.waiters <= 0 && run.key in inflightScans && inflightScans[run.key] == r {
        ScheduleLingerAbort(r, now);
      }
    }

    method Detach(c: CallerId)
      requires Enabled(View(), Event.Detach(c))
      modifies this`runs, this`callers
      ensures View() == Next(old(View()), Event.Detach(c))
    {
      if !callers[c].status.Waiting? {
        return;
      }
      var r := callers[c].run;
      if callers[c].progress {
        runs := runs[r := runs[r].(listeners := runs[r].listeners - {c})];
      }
      callers := callers[c := callers[c].(status := Done)];
      assert !callers[c].progress ==> runs == runs[r := runs[r]];
    }

    /** The frames a factory emits before it returns its promise. */
    method RunFactory(r: RunId, frames: seq<Frame>)
      requires r < |runs|
      requires forall c :: c in runs[r].listeners ==> c < |callers|
      modifies this`runs, this`callers
      ensures View() == EmittedAll(old(View()), r, frames)
    {
      hide Emitted, EmittedAll;
      ghost var start := View();
      LastFrameWins(start, r, frames[..0]);
      for i := 0 to |frames|
        invariant inflightScans == old(inflightScans) && clock == old(clock)
        invariant |runs| == |start.runs| && runs[r].listeners == start.runs[r].listeners && |callers| == |start.callers|
        invariant View() == EmittedAll(start, r, frames[..i])
      {
        EmittedKeepsSizes(View(), r, frames[i]);
        EmittedTwice(start, r, frames[..i], frames[i]);
        LastFrameWins(start, r, frames[..i + 1]);
        Emit(r, frames[i]);
      }
      assert frames[..|frames|] == frames;
    }

    /** The start of a run: map its entry, then run the factory, which may emit `frames` and may throw. */
    method StartRun(key: Key, progress: bool, frames: seq<Frame>, throws: bool, now: int)
      requires Joinable(View(), key).None?
      modifies this
      ensures View() == Started(old(View()), Call(key, progress, MayAbort, frames, throws, now))
    {
      ghost var call := Call(key, progress, MayAbort, frames, throws, now);
      var r, c := |runs|, |callers|;
      clock := now;
      inflightScans := inflightScans[key := r];
      runs := runs + [Run(key, 0, None, if progress then {c} else {}, None, None, false, false)];
      callers := callers + [Caller(r, progress, Threw, None)];
      ghost var mapped := View();
      RunFactory(r, frames);
      AttachedStarts(old(View()), call);
      LastFrameWins(mapped, r, frames);
      if throws {
        Evict(r);
      } else {
        runs := runs[r := runs[r].(waiters := runs[r].waiters + 1)];
        callers := callers[c := callers[c].(run := r, status := Waiting)];
      }
      assert runs == Started(old(View()), call).runs;
      assert callers == Started(old(View()), call).callers;
      assert inflightScans == Started(old(View()), call).inflight;
    }

    method JoinRun(r: RunId, progress: bool, now: int)
      requires r < |runs| && Joinable(View(), runs[r].key) == Option.Some(r)
      modifies this
      ensures View() == Attached(old(View()), Call(old(runs)[r].key, progress, MayAbort, [], false, now))
    {
      var c := |callers|;
      clock := now;
      CancelLinger(r);
      if progress {
        runs := runs[r := runs[r].(listeners := runs[r].listeners + {c})];
      }
      callers := callers + [Caller(r, progress, Waiting, if progress then runs[r].last else None)];
      runs := runs[r := runs[r].(waiters := runs[r].waiters + 1)];
      assert var none: set<CallerId> := {}; old(runs)[r].listeners + none == old(runs)[r].listeners;
      assert runs == Attached(old(View()), Call(old(runs)[r].key, progress, MayAbort, [], false, now)).runs;
    }

    /** `frames` and `throws` are what this call's factory would do synchronously if it had to be started. */
    method CoalesceScan(key: Key, progress: bool, signal: Signal, frames: seq<Frame>, throws: bool, now: int)
      returns (c: CallerId, joined: bool)
      requires Inv(View()) && clock <= now
      modifies this
      ensures View() == Next(old(View()), Call(key, progress, signal, frames, throws, now))
      ensures c == |old(callers)| && joined == (key in old(inflightScans))
    {
      c := |callers|;
      joined := key in inflightScans && runs[inflightScans[key]].aborted == None;
      if joined {
        JoinRun(inflightScans[key], progress, now);
      } else {
        StartRun(key, progress, frames, throws, now);
        AttachedStarts(old(View()), Call(key, progress, signal, frames, throws, now));
      }
      if signal == AlreadyAborted {
        Release(c, now);
      }
    }
  }

  lemma EmittedKeepsSizes(y: System, r: RunId, frame: Frame)
    requires r < |y.runs|
    ensures var y' := Emitted(y, r, frame);
            |y'.runs| == |y.runs| && y'.runs[r].listeners == y.runs[r].listeners && |y'.callers| == |y.callers|
  {
  }

  lemma EmittedTwice(y: System, r: RunId, before: seq<Frame>, frame: Frame)
    requires r < |y.runs|
    ensures Emitted(EmittedAll(y, r, before), r, frame) == Emitted(y, r, frame)
  {
    LastFrameWins(y, r, before);
    if before != [] {
      var mid := Emitted(y, r, before[|before| - 1]);
      assert Emitted(mid, r, frame).callers == Emitted(y, r, frame).callers;
      assert Emitted(mid, r, frame).runs == Emitted(y, r, frame).runs;
    }
  }
}
