/**
 * The bounded fan-out schedulers: several lanes share one cursor, and each claims an item, awaits its
 * work, and comes back for the next. Every lane is a process whose steps are cut at the await, so a
 * run is any sequence of turns and settlements. Clock readings are arbitrary integers: nothing below
 * needs the clock to move forwards.
 */
module FanOutPool {
  import opened Common

  /** A lane is about to test its loop guard, is awaiting one item's work, or has returned. */
  datatype Lane =
    | AtHead
    | Running(item: nat, startedAt: int)
    | Exhausted
    | OutOfTime(readAt: int)

  /** What the lanes share; without a deadline no guard ever refuses. */
  datatype Pool = Pool(n: nat, deadlineAt: Option<int>, cursor: nat, attempted: nat, worstMs: nat, observed: bool,
                       lanes: seq<Lane>)

  datatype Outcome = Pending | Finished(at: int)

  /** One invocation of the caller's work: who issued it, what the clock said, and how many calls had ended. */
  datatype Call = Call(item: nat, lane: nat, guardAt: int, startedAt: int, seen: nat, outcome: Outcome) {
    function Elapsed(): int {
      match outcome
      case Pending => 0
      case Finished(at) => at - startedAt
    }
  }

  /** The pool together with everything that was asked of the caller's work, in order. */
  datatype World = World(pool: Pool, calls: seq<Call>, ended: seq<nat>)

  datatype Event = Turn(lane: nat, guardAt: int, startedAt: int) | Settle(lane: nat, at: int)

  function LaneCount(n: nat, concurrency: int): (lanes: nat)
    ensures lanes >= 1
    ensures n >= 1 ==> lanes <= n
    ensures concurrency >= 1 ==> lanes <= concurrency
  {
    var least := if concurrency < n then concurrency else n;
    if least > 1 then least else 1
  }

  function Started(n: nat, concurrency: int, deadlineAt: Option<int>): World {
    World(Pool(n, deadlineAt, 0, 0, 0, false, seq(LaneCount(n, concurrency), _ => AtHead)), [], [])
  }

  predicate Enabled(p: Pool, e: Event) {
    && e.lane < |p.lanes|
    && (e.Turn? ==> p.lanes[e.lane].AtHead?)
    && (e.Settle? ==> p.lanes[e.lane].Running? && p.lanes[e.lane].item < p.cursor)
  }

  /** The guard a lane reads before it commits to an item. */
  predicate NoLongerFits(p: Pool, readAt: int) {
    p.deadlineAt.Some? && p.observed && readAt + p.worstMs > p.deadlineAt.value
  }

  function Step(p: Pool, e: Event): Pool
    requires Enabled(p, e)
  {
    match e
    case Turn(l, guardAt, startedAt) =>
      if p.cursor >= p.n then
        p.(lanes := p.lanes[l := Exhausted])
      else if NoLongerFits(p, guardAt) then
        p.(lanes := p.lanes[l := OutOfTime(guardAt)])
      else
        p.(cursor := p.cursor + 1, attempted := p.attempted + 1, lanes := p.lanes[l := Running(p.cursor, startedAt)])
    case Settle(l, at) =>
      var elapsed := at - p.lanes[l].startedAt;
      p.(lanes := p.lanes[l := AtHead], worstMs := if elapsed > p.worstMs then elapsed else p.worstMs, observed := true)
  }

  predicate Claims(p: Pool, e: Event) {
    e.Turn? && p.cursor < p.n && !NoLongerFits(p, e.guardAt)
  }

  function Next(w: World, e: Event): World
    requires Enabled(w.pool, e) && |w.calls| == w.pool.cursor
  {
    var pool := Step(w.pool, e);
    if Claims(w.pool, e) then
      World(pool, w.calls + [Call(w.pool.cursor, e.lane, e.guardAt, e.startedAt, |w.ended|, Pending)], w.ended)
    else if e.Settle? then
      var i := w.pool.lanes[e.lane].item;
      World(pool, w.calls[i := w.calls[i].(outcome := Finished(e.at))], w.ended + [i])
    else
      World(pool, w.calls, w.ended)
  }

  // ---------------------------------------------------------------------------------------------
  // What every step keeps
  // ---------------------------------------------------------------------------------------------

  /** The claims handed out are exactly 0 .. cursor-1, one call each, in order. */
  predicate ClaimsInOrder(w: World) {
    && |w.calls| == w.pool.cursor == w.pool.attempted <= w.pool.n
    && forall i :: 0 <= i < |w.calls| ==> w.calls[i].item == i && w.calls[i].lane < |w.pool.lanes|
  }

  /** A lane awaits a call exactly when that call is still pending. */
  predicate LanesHoldThePending(w: World)
    requires ClaimsInOrder(w)
  {
    && (forall i :: 0 <= i < |w.calls| && w.calls[i].outcome.Pending? ==>
          w.pool.lanes[w.calls[i].lane] == Running(i, w.calls[i].startedAt))
    && (forall l :: 0 <= l < |w.pool.lanes| && w.pool.lanes[l].Running? ==>
          && w.pool.lanes[l].item < |w.calls|
          && w.calls[w.pool.lanes[l].item].lane == l
          && w.calls[w.pool.lanes[l].item].outcome.Pending?)
  }

  /** `ended` lists every finished call once. */
  predicate EndedOnce(w: World) {
    && (forall k :: 0 <= k < |w.ended| ==> w.ended[k] < |w.calls| && w.calls[w.ended[k]].outcome.Finished?)
    && (forall i :: 0 <= i < |w.calls| && w.calls[i].outcome.Finished? ==> i in w.ended)
    && (forall j, k :: 0 <= j < k < |w.ended| ==> w.ended[j] != w.ended[k])
  }

  /** What the k-th completion took. */
  function Spent(w: World, k: nat): int
    requires k < |w.ended|
  {
    if w.ended[k] < |w.calls| then w.calls[w.ended[k]].Elapsed() else 0
  }

  /** `worstMs` is the largest elapsed time seen so far, and zero before any. */
  predicate WorstIsMeasured(w: World) {
    && (w.pool.observed <==> |w.ended| > 0)
    && (forall k :: 0 <= k < |w.ended| ==> Spent(w, k) <= w.pool.worstMs)
    && (w.pool.worstMs > 0 ==> exists k :: 0 <= k < |w.ended| && Spent(w, k) == w.pool.worstMs)
  }

  /** Each call issued after a completion left room for a repeat of every completion it had seen. */
  predicate IssuedWithRoom(w: World) {
    forall i :: 0 <= i < |w.calls| ==> Roomy(w, i)
  }

  predicate Roomy(w: World, i: nat)
    requires i < |w.calls|
  {
    && w.calls[i].seen <= |w.ended|
    && (w.pool.deadlineAt.Some? ==>
          forall k :: 0 <= k < w.calls[i].seen ==> w.calls[i].guardAt + Spent(w, k) <= w.pool.deadlineAt.value)
  }

  /** A lane that returned did so because nothing was left, or because its guard refused. */
  predicate StoppedForCause(p: Pool) {
    forall l :: 0 <= l < |p.lanes| ==>
      && (p.lanes[l].Exhausted? ==> p.cursor == p.n)
      && (p.lanes[l].OutOfTime? ==> NoLongerFits(p, p.lanes[l].readAt))
  }

  predicate Inv(w: World) {
    && ClaimsInOrder(w)
    && LanesHoldThePending(w)
    && EndedOnce(w)
    && WorstIsMeasured(w)
    && IssuedWithRoom(w)
    && StoppedForCause(w.pool)
  }

  lemma StartedKeeps(n: nat, concurrency: int, deadlineAt: Option<int>)
    ensures Inv(Started(n, concurrency, deadlineAt))
  {
  }

  lemma NextKeeps(w: World, e: Event)
    requires Inv(w) && Enabled(w.pool, e)
    ensures Inv(Next(w, e))
  {
    if e.Settle? {
      SettleKeeps(w, e);
    } else {
      TurnKeeps(w, e);
    }
  }

  lemma TurnKeeps(w: World, e: Event)
    requires Inv(w) && Enabled(w.pool, e) && e.Turn?
    ensures Inv(Next(w, e))
  {
    hide Roomy, WorstIsMeasured, StoppedForCause;
    var v := Next(w, e);
    assert forall i :: 0 <= i < |w.calls| ==> v.calls[i] == w.calls[i];
    assert EndedOnce(v);
    TurnMeasures(w, e);
  }

  lemma TurnMeasures(w: World, e: Event)
    requires Inv(w) && Enabled(w.pool, e) && e.Turn?
    ensures WorstIsMeasured(Next(w, e)) && IssuedWithRoom(Next(w, e)) && StoppedForCause(Next(w, e).pool)
  {
    hide LanesHoldThePending;
    var v := Next(w, e);
    assert forall i :: 0 <= i < |w.calls| ==> Roomy(w, i) && v.calls[i] == w.calls[i];
    assert forall k :: 0 <= k < |w.ended| ==> Spent(v, k) == Spent(w, k);
    if w.pool.worstMs > 0 {
      var k :| 0 <= k < |w.ended| && Spent(w, k) == w.pool.worstMs;
      assert Spent(v, k) == v.pool.worstMs;
    }
  }

  lemma SettleKeeps(w: World, e: Event)
    requires Inv(w) && Enabled(w.pool, e) && e.Settle?
    ensures Inv(Next(w, e))
  {
    hide Roomy, WorstIsMeasured, StoppedForCause;
    var v := Next(w, e);
    var i := w.pool.lanes[e.lane].item;
    assert i !in w.ended;
    assert v.ended[|w.ended|] == i;
    assert forall k :: 0 <= k < |w.ended| ==> v.ended[k] == w.ended[k];
    assert EndedOnce(v);
    SettleMeasures(w, e);
  }

  lemma SettleMeasures(w: World, e: Event)
    requires Inv(w) && Enabled(w.pool, e) && e.Settle?
    ensures WorstIsMeasured(Next(w, e)) && IssuedWithRoom(Next(w, e)) && StoppedForCause(Next(w, e).pool)
  {
    var v := Next(w, e);
    var last := |w.ended|;
    assert forall k :: 0 <= k < last ==> Spent(v, k) == Spent(w, k);
    assert Spent(v, last) == e.at - w.pool.lanes[e.lane].startedAt;
    assert forall j :: 0 <= j < |w.calls| ==> Roomy(w, j) && v.calls[j].(outcome := Pending) == w.calls[j].(outcome := Pending);
    if w.pool.worstMs > 0 {
      var k :| 0 <= k < last && Spent(w, k) == w.pool.worstMs;
      assert Spent(v, k) == w.pool.worstMs;
    }
  }

  // ---------------------------------------------------------------------------------------------
  // Whole runs
  // ---------------------------------------------------------------------------------------------

  ghost predicate Runs(w: World, events: seq<Event>, v: World)
    decreases |events|
  {
    if events == [] then v == w
    else
      && Enabled(w.pool, events[0])
      && |w.calls| == w.pool.cursor
      && Runs(Next(w, events[0]), events[1..], v)
  }

  predicate AllReturned(p: Pool) {
    forall l :: 0 <= l < |p.lanes| ==> p.lanes[l].Exhausted? || p.lanes[l].OutOfTime?
  }

  function Weight(lane: Lane): nat {
    match lane
    case AtHead => 1
    case Running(_, _) => 2
    case _ => 0
  }

  function TotalWeight(lanes: seq<Lane>): nat {
    if lanes == [] then 0 else Weight(lanes[0]) + TotalWeight(lanes[1..])
  }

  /** How many more steps the pool can take at most. */
  function StepsLeft(p: Pool): int {
    2 * (p.n - p.cursor) + TotalWeight(p.lanes)
  }

  lemma {:induction false} WeightAfterUpdate(lanes: seq<Lane>, l: nat, lane: Lane)
    requires l < |lanes|
    ensures TotalWeight(lanes[l := lane]) == TotalWeight(lanes) - Weight(lanes[l]) + Weight(lane)
  {
    if l == 0 {
      assert lanes[l := lane][1..] == lanes[1..];
    } else {
      WeightAfterUpdate(lanes[1..], l - 1, lane);
      assert lanes[l := lane][1..] == lanes[1..][l - 1 := lane];
    }
  }

  lemma {:induction false} WeightOfIdle(count: nat)
    ensures TotalWeight(seq(count, _ => AtHead)) == count
  {
    if count > 0 {
      WeightOfIdle(count - 1);
      var lanes := seq(count, _ => AtHead);
      assert lanes[1..] == seq(count - 1, _ => AtHead);
    }
  }

  lemma {:induction false} WeightOfReturned(lanes: seq<Lane>)
    requires forall l :: 0 <= l < |lanes| ==> lanes[l].Exhausted? || lanes[l].OutOfTime?
    ensures TotalWeight(lanes) == 0
  {
    if lanes != [] {
      WeightOfReturned(lanes[1..]);
    }
  }

  lemma WeightOfStopped(p: Pool)
    requires AllReturned(p)
    ensures TotalWeight(p.lanes) == 0
  {
    WeightOfReturned(p.lanes);
  }

  /** Every step uses up exactly one unit, whichever lane takes it and whatever the clock says. */
  lemma EachStepCountsOnce(p: Pool, e: Event)
    requires Enabled(p, e)
    ensures StepsLeft(Step(p, e)) == StepsLeft(p) - 1
  {
    WeightAfterUpdate(p.lanes, e.lane, Step(p, e).lanes[e.lane]);
  }

  /** Until all lanes have returned, some lane can step: there is no schedule that gets stuck. */
  lemma NeverStuck(w: World, at: int) returns (e: Event)
    requires Inv(w) && !AllReturned(w.pool)
    ensures Enabled(w.pool, e)
  {
    var l :| 0 <= l < |w.pool.lanes| && (w.pool.lanes[l].AtHead? || w.pool.lanes[l].Running?);
    e := if w.pool.lanes[l].AtHead? then Turn(l, at, at) else Settle(l, at);
  }

  lemma {:induction false} RunKeeps(w: World, events: seq<Event>, v: World)
    requires Inv(w) && Runs(w, events, v)
    ensures Inv(v) && v.pool.n == w.pool.n && v.pool.deadlineAt == w.pool.deadlineAt
    ensures |v.pool.lanes| == |w.pool.lanes|
    ensures StepsLeft(v.pool) == StepsLeft(w.pool) - |events|
    decreases |events|
  {
    if events != [] {
      NextKeeps(w, events[0]);
      EachStepCountsOnce(w.pool, events[0]);
      RunKeeps(Next(w, events[0]), events[1..], v);
    }
  }

  /**
   * A finished run, under every schedule: each item below the cursor was issued once, in order, and
   * completed; nothing beyond the cursor was touched; it took two steps an item and one a lane; and
   * when it left work behind, some item had completed first and every lane's guard had refused.
   */
  lemma FinishedRun(n: nat, concurrency: int, deadlineAt: Option<int>, events: seq<Event>, w: World)
    requires Runs(Started(n, concurrency, deadlineAt), events, w) && AllReturned(w.pool)
    ensures w.pool.attempted == w.pool.cursor == |w.calls| == |w.ended| <= n
    ensures forall i :: 0 <= i < |w.calls| ==> w.calls[i].item == i && w.calls[i].outcome.Finished? && i in w.ended
    ensures |events| == 2 * w.pool.cursor + LaneCount(n, concurrency)
    ensures w.pool.cursor < n ==> deadlineAt.Some? && |w.ended| > 0 && forall l :: 0 <= l < |w.pool.lanes| ==> Refused(w, l)
  {
    hide Inv, Roomy, AllReturned, Refused;
    StartedKeeps(n, concurrency, deadlineAt);
    RunKeeps(Started(n, concurrency, deadlineAt), events, w);
    WeightOfIdle(LaneCount(n, concurrency));
    WeightOfStopped(w.pool);
    EndedCount(w);
    assert w.pool.cursor <= w.pool.n by { CursorInRange(w); }
    if w.pool.cursor < n {
      forall l | 0 <= l < |w.pool.lanes|
        ensures |w.ended| > 0 && Refused(w, l)
      {
        ReturnedEarly(w, l);
      }
      ReturnedEarly(w, 0);
    }
  }

  /** Lane `l` returned because a repeat of some completed item would have ended past the deadline. */
  predicate Refused(w: World, l: nat)
    requires l < |w.pool.lanes|
  {
    && w.pool.lanes[l].OutOfTime? && w.pool.deadlineAt.Some?
    && exists k :: 0 <= k < |w.ended| && w.pool.lanes[l].readAt + Longest(w, k) > w.pool.deadlineAt.value
  }

  /** What a completed call contributes to the projection: its elapsed time, never below zero. */
  function Longest(w: World, k: nat): nat
    requires k < |w.ended|
  {
    if Spent(w, k) > 0 then Spent(w, k) else 0
  }

  lemma ReturnedEarly(w: World, l: nat)
    requires Inv(w) && AllReturned(w.pool) && w.pool.cursor < w.pool.n && l < |w.pool.lanes|
    ensures w.pool.deadlineAt.Some? && |w.ended| > 0 && Refused(w, l)
  {
    var readAt := w.pool.lanes[l].readAt;
    assert NoLongerFits(w.pool, readAt);
    if w.pool.worstMs > 0 {
      var k :| 0 <= k < |w.ended| && Spent(w, k) == w.pool.worstMs;
      assert readAt + Longest(w, k) > w.pool.deadlineAt.value;
    } else {
      assert readAt + Longest(w, 0) > w.pool.deadlineAt.value;
    }
  }

  lemma CursorInRange(w: World)
    requires Inv(w)
    ensures |w.calls| == w.pool.cursor <= w.pool.n
  {
  }

  lemma ItemInRange(w: World, l: nat)
    requires Inv(w) && l < |w.pool.lanes| && w.pool.lanes[l].Running?
    ensures w.pool.lanes[l].item < w.pool.cursor
  {
  }

  /** Once every lane has returned nothing is pending, so as many calls have ended as were made. */
  lemma EndedCount(w: World)
    requires Inv(w) && AllReturned(w.pool)
    ensures |w.ended| == |w.calls| == w.pool.cursor == w.pool.attempted
    ensures forall i :: 0 <= i < |w.calls| ==> w.calls[i].item == i && w.calls[i].outcome.Finished? && i in w.ended
  {
    hide Roomy, WorstIsMeasured, StoppedForCause;
    forall i | 0 <= i < |w.calls|
      ensures w.calls[i].outcome.Finished? && i in w.ended
    {
      assert !w.pool.lanes[w.calls[i].lane].Running?;
    }
    DistinctSize(w.ended);
    assert Elements(w.ended) == Upto(|w.calls|);
  }

  function Upto(n: nat): (s: set<nat>)
    ensures |s| == n
    ensures forall i: nat :: i in s <==> i < n
  {
    if n == 0 then {} else Upto(n - 1) + {n - 1}
  }

  function Elements(s: seq<nat>): set<nat> {
    set x | x in s
  }

  lemma {:induction false} DistinctSize(s: seq<nat>)
    requires forall j, k :: 0 <= j < k < |s| ==> s[j] != s[k]
    ensures |Elements(s)| == |s|
  {
    if s != [] {
      var front, last := s[..|s| - 1], s[|s| - 1];
      DistinctSize(front);
      assert last !in front;
      assert Elements(s) == Elements(front) + {last};
    }
  }

  // ---------------------------------------------------------------------------------------------
  // Bounds at every moment of a run
  // ---------------------------------------------------------------------------------------------

  function InFlight(w: World): set<nat> {
    set i: nat | i < |w.calls| && w.calls[i].outcome.Pending?
  }

  /** As many calls as a pool may have in flight: what was asked for, but one at least and no more than the items. */
  function Allowed(n: nat, concurrency: int): nat {
    if n == 0 then 0 else if concurrency < 1 then 1 else if concurrency < n then concurrency else n
  }

  /** At no moment of any run are more calls in flight than that. */
  lemma BoundedConcurrency(n: nat, concurrency: int, deadlineAt: Option<int>, events: seq<Event>, w: World)
    requires Runs(Started(n, concurrency, deadlineAt), events, w)
    ensures |InFlight(w)| <= Allowed(n, concurrency)
  {
    NoItemsNoCalls(n, concurrency, deadlineAt, events, w);
    StartedKeeps(n, concurrency, deadlineAt);
    RunKeeps(Started(n, concurrency, deadlineAt), events, w);
    var lanes := set i | i in InFlight(w) :: w.calls[i].lane;
    assert forall i, j :: i in InFlight(w) && j in InFlight(w) && i != j ==> w.calls[i].lane != w.calls[j].lane;
    InjectiveSize(InFlight(w), w.calls);
    SubsetSize(lanes, Upto(|w.pool.lanes|));
  }

  lemma NoItemsNoCalls(n: nat, concurrency: int, deadlineAt: Option<int>, events: seq<Event>, w: World)
    requires Runs(Started(n, concurrency, deadlineAt), events, w)
    ensures n == 0 ==> InFlight(w) == {}
  {
    StartedKeeps(n, concurrency, deadlineAt);
    RunKeeps(Started(n, concurrency, deadlineAt), events, w);
    CursorInRange(w);
  }

  /** And some run gets there: the pool is as concurrent as it was asked to be. */
  lemma ConcurrencyIsReached(n: nat, concurrency: int, deadlineAt: Option<int>) returns (events: seq<Event>, w: World)
    ensures Runs(Started(n, concurrency, deadlineAt), events, w)
    ensures |InFlight(w)| == Allowed(n, concurrency)
  {
    events, w := FirstTurns(n, concurrency, deadlineAt, Allowed(n, concurrency));
    assert InFlight(w) == Upto(Allowed(n, concurrency));
  }

  /** The first `k` lanes have each taken an item and the others have not moved. */
  lemma {:induction false} FirstTurns(n: nat, concurrency: int, deadlineAt: Option<int>, k: nat)
    returns (events: seq<Event>, w: World)
    requires k <= Allowed(n, concurrency)
    ensures Runs(Started(n, concurrency, deadlineAt), events, w)
    ensures w.pool.n == n && w.pool.cursor == |w.calls| == k && !w.pool.observed
    ensures |w.pool.lanes| >= Allowed(n, concurrency)
    ensures forall l :: k <= l < |w.pool.lanes| ==> w.pool.lanes[l].AtHead?
    ensures forall i :: 0 <= i < k ==> w.calls[i].outcome.Pending?
    decreases k
  {
    hide Runs;
    if k == 0 {
      events, w := [], Started(n, concurrency, deadlineAt);
      NothingRun(w);
    } else {
      var before;
      events, before := FirstTurns(n, concurrency, deadlineAt, k - 1);
      var e := Turn(k - 1, 0, 0);
      RunsOneMore(Started(n, concurrency, deadlineAt), events, before, e);
      events, w := events + [e], Next(before, e);
    }
  }

  lemma {:induction false} InjectiveSize(items: set<nat>, calls: seq<Call>)
    requires forall i :: i in items ==> i < |calls|
    requires forall i, j :: i in items && j in items && i != j ==> calls[i].lane != calls[j].lane
    ensures |set i | i in items :: calls[i].lane| == |items|
  {
    if items != {} {
      var x :| x in items;
      InjectiveSize(items - {x}, calls);
      assert (set i | i in items :: calls[i].lane) == (set i | i in items - {x} :: calls[i].lane) + {calls[x].lane};
    }
  }

  /**
   * The overrun bound: a call that ends after the deadline was issued before anything had completed,
   * or took longer, from the guard's clock reading to its end, than every call that had completed
   * when it was issued. When the guard's reading is also the start time that is its elapsed time.
   */
  lemma OverrunsAreSurprises(n: nat, concurrency: int, deadlineAt: int, events: seq<Event>, w: World, i: nat)
    requires Runs(Started(n, concurrency, Some(deadlineAt)), events, w)
    requires i < |w.calls| && w.calls[i].outcome.Finished? && w.calls[i].outcome.at > deadlineAt
    ensures w.calls[i].seen <= |w.ended|
    ensures forall k :: 0 <= k < w.calls[i].seen ==> w.calls[i].outcome.at - w.calls[i].guardAt > Spent(w, k)
    ensures w.calls[i].startedAt == w.calls[i].guardAt ==>
      forall k :: 0 <= k < w.calls[i].seen ==> w.calls[i].Elapsed() > Spent(w, k)
  {
    StartedKeeps(n, concurrency, Some(deadlineAt));
    RunKeeps(Started(n, concurrency, Some(deadlineAt)), events, w);
    assert Roomy(w, i);
  }

  // ---------------------------------------------------------------------------------------------
  // The two pools
  // ---------------------------------------------------------------------------------------------

  datatype PoolResult<T> = PoolResult(remaining: seq<T>, attempted: nat, truncated: bool)

  /** The schedule is whatever the event loop chose; every choice meets the contract. */
  method MapPoolUntilDeadline<T>(items: seq<T>, concurrency: int, deadlineAt: int)
    returns (result: PoolResult<T>, ghost events: seq<Event>, ghost w: World)
    ensures Runs(Started(|items|, concurrency, Some(deadlineAt)), events, w)
    ensures |items| > 0 ==> AllReturned(w.pool)
    ensures result.attempted == |w.calls| == |w.ended|
    ensures result.attempted <= |items| && result.remaining == items[result.attempted..]
    ensures result.truncated <==> result.attempted < |items|
    ensures |items| > 0 ==> result.attempted > 0
  {
    hide Inv, Runs, StepsLeft;
    var n := |items|;
    events, w := [], Started(n, concurrency, Some(deadlineAt));
    NothingRun(w);
    if n == 0 {
      return PoolResult([], 0, false), events, w;
    }
    ghost var start := w;
    StartedKeeps(n, concurrency, Some(deadlineAt));
    StepsRemain(w);
    var cursor, attempted, worstMs, observed := 0, 0, 0, false;
    var lanes := seq(LaneCount(n, concurrency), _ => AtHead);
    while exists l :: 0 <= l < |lanes| && (lanes[l].AtHead? || lanes[l].Running?)
      invariant w.pool == Pool(n, Some(deadlineAt), cursor, attempted, worstMs, observed, lanes)
      invariant Inv(w) && Runs(start, events, w) && |lanes| == |start.pool.lanes|
      decreases StepsLeft(w.pool)
    {
      var l :| 0 <= l < |lanes| && (lanes[l].AtHead? || lanes[l].Running?);
      var read: int, start2: int := *, *;
      ghost var e := if lanes[l].AtHead? then Turn(l, read, start2) else Settle(l, read);
      CursorInRange(w);
      if lanes[l].Running? {
        ItemInRange(w, l);
      }
      EachStepCountsOnce(w.pool, e);
      NextKeeps(w, e);
      RunsOneMore(start, events, w, e);
      events, w := events + [e], Next(w, e);
      StepsRemain(w);
      if lanes[l].Running? {
        var elapsed := read - lanes[l].startedAt;
        if elapsed > worstMs {
          worstMs := elapsed;
        }
        observed := true;
        lanes := lanes[l := AtHead];
      } else if cursor >= n {
        lanes := lanes[l := Exhausted];
      } else if observed && read + worstMs > deadlineAt {
        lanes := lanes[l := OutOfTime(read)];
      } else {
        lanes := lanes[l := Running(cursor, start2)];
        cursor := cursor + 1;
        attempted := attempted + 1;
      }
    }
    FinishedRun(n, concurrency, Some(deadlineAt), events, w);
    var remaining := items[cursor..];
    result := PoolResult(remaining, attempted, |remaining| > 0);
  }

  lemma NothingRun(w: World)
    ensures Runs(w, [], w)
  {
  }

  lemma StepsRemain(w: World)
    requires Inv(w)
    ensures StepsLeft(w.pool) >= 0
  {
  }

  lemma {:induction false} RunsOneMore(w: World, events: seq<Event>, v: World, e: Event)
    requires Runs(w, events, v) && Enabled(v.pool, e) && |v.calls| == v.pool.cursor
    ensures Runs(w, events + [e], Next(v, e))
    decreases |events|
  {
    if events != [] {
      RunsOneMore(Next(w, events[0]), events[1..], v, e);
      assert (events + [e])[1..] == events[1..] + [e];
    }
  }

  datatype Slot<R> = Hole | Value(value: R)

  /** Results land at their own item's index whatever order the calls end in; no hole is left. */
  method MapPool<T, R>(items: seq<T>, concurrency: int, fn: (T, nat) -> R)
    returns (results: array<Slot<R>>, ghost events: seq<Event>, ghost w: World)
    ensures fresh(results) && results.Length == |items|
    ensures forall i :: 0 <= i < |items| ==> results[i] == Value(fn(items[i], i))
    ensures Runs(Started(|items|, concurrency, None), events, w)
    ensures |items| > 0 ==> AllReturned(w.pool)
  {
    hide Inv, Runs, StepsLeft;
    var n := |items|;
    results := new Slot<R>[n](_ => Hole);
    events, w := [], Started(n, concurrency, None);
    NothingRun(w);
    if n == 0 {
      return;
    }
    ghost var start := w;
    StartedKeeps(n, concurrency, None);
    StepsRemain(w);
    var cursor := 0;
    var lanes := seq(LaneCount(n, concurrency), _ => AtHead);
    while exists l :: 0 <= l < |lanes| && (lanes[l].AtHead? || lanes[l].Running?)
      invariant w.pool.n == n && w.pool.deadlineAt.None? && w.pool.cursor == cursor && w.pool.lanes == lanes
      invariant Inv(w) && Runs(start, events, w) && |w.calls| == cursor <= n
      invariant forall i :: 0 <= i < cursor && w.calls[i].outcome.Finished? ==> results[i] == Value(fn(items[i], i))
      decreases StepsLeft(w.pool)
    {
      var l :| 0 <= l < |lanes| && (lanes[l].AtHead? || lanes[l].Running?);
      ghost var e := if lanes[l].AtHead? then Turn(l, 0, 0) else Settle(l, 0);
      CursorInRange(w);
      if lanes[l].Running? {
        ItemInRange(w, l);
      }
      EachStepCountsOnce(w.pool, e);
      NextKeeps(w, e);
      RunsOneMore(start, events, w, e);
      events, w := events + [e], Next(w, e);
      StepsRemain(w);
      CursorInRange(w);
      if lanes[l].Running? {
        var i := lanes[l].item;
        results[i] := Value(fn(items[i], i));
        lanes := lanes[l := AtHead];
      } else if cursor >= n {
        lanes := lanes[l := Exhausted];
      } else {
        lanes := lanes[l := Running(cursor, 0)];
        cursor := cursor + 1;
      }
    }
    FinishedRun(n, concurrency, None, events, w);
  }
}
