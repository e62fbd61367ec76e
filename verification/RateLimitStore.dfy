/**
 The cross-instance window (src/lib/rate-limit-store.ts): a sorted set every instance trims, adds to
 and counts. The commands of one request run in order but interleave with every other request's, so
 each command is a step of its own; a request may stop after any of them (timeout, crash, lost reply).
 */
module RateLimitStore {
  import opened Common
  import opened SlidingWindow

  /** Requests are numbered in arrival order; a request's number is its unique member. */
  type Member = nat

  datatype Phase =
    | Arrived
    | Trimmed
    | Added
    | Counted(count: nat, at: int, rank: nat)
    | Removed(count: nat)

  /** `now` is the request's one clock read: its score and, less the window, its cutoff. */
  datatype Request = Request(now: int, phase: Phase)

  datatype System = System(members: map<Member, int>, requests: seq<Request>, clock: int, counts: nat)

  /** Every command names its request and the instant the server runs it. */
  datatype Event =
    | Arrive(at: int)
    | Trim(id: Member, at: int)
    | Add(id: Member, at: int)
    | Count(id: Member, at: int)
    | Remove(id: Member, at: int)

  const EMPTY := System(map[], [], 0, 0)

  /** ZREMRANGEBYSCORE key lo hi */
  function WithoutScores(members: map<Member, int>, lo: int, hi: int): map<Member, int> {
    map m | m in members && !(lo <= members[m] <= hi) :: members[m]
  }

  predicate Enabled(y: System, e: Event) {
    y.clock <= e.at &&
    match e
    case Arrive(_) => true
    case Trim(id, _) => id < |y.requests| && y.requests[id].phase.Arrived?
    case Add(id, _) => id < |y.requests| && y.requests[id].phase.Trimmed?
    case Count(id, _) => id < |y.requests| && y.requests[id].phase.Added?
    case Remove(id, _) => id < |y.requests| && y.requests[id].phase.Counted?
  }

  function Moved(y: System, id: Member, phase: Phase): seq<Request>
    requires id < |y.requests|
  {
    y.requests[id := y.requests[id].(phase := phase)]
  }

  /** One command. A compensating delete is sent only by a request whose count was over the limit. */
  function Next(limit: nat, windowMs: int, y: System, e: Event): System
    requires Enabled(y, e)
  {
    match e
    case Arrive(at) => y.(requests := y.requests + [Request(at, Arrived)], clock := at)
    case Trim(id, at) =>
      y.(members := WithoutScores(y.members, 0, y.requests[id].now - windowMs), requests := Moved(y, id, Trimmed), clock := at)
    case Add(id, at) =>
      y.(members := y.members[id := y.requests[id].now], requests := Moved(y, id, Added), clock := at)
    case Count(id, at) =>
      y.(requests := Moved(y, id, Counted(|y.members|, at, y.counts)), clock := at, counts := y.counts + 1)
    case Remove(id, at) =>
      if y.requests[id].phase.count <= limit then y.(clock := at)
      else y.(members := y.members - {id}, requests := Moved(y, id, Removed(y.requests[id].phase.count)), clock := at)
  }

  predicate Possible(limit: nat, windowMs: int, y: System, events: seq<Event>)
    decreases |events|
  {
    events != [] ==> Enabled(y, events[0]) && Possible(limit, windowMs, Next(limit, windowMs, y, events[0]), events[1..])
  }

  function After(limit: nat, windowMs: int, y: System, events: seq<Event>): System
    requires Possible(limit, windowMs, y, events)
    decreases |events|
  {
    if events == [] then y else After(limit, windowMs, Next(limit, windowMs, y, events[0]), events[1..])
  }

  /** Admitted: the count that included this hit was within the limit. */
  predicate Admitted(limit: nat, y: System, id: Member) {
    id < |y.requests| && y.requests[id].phase.Counted? && y.requests[id].phase.count <= limit
  }

  /** The admitted hits scored in `[from, to)`. */
  function AdmittedIn(limit: nat, y: System, from: int, to: int): set<Member> {
    set id | 0 <= id < |y.requests| && Admitted(limit, y, id) && from <= y.requests[id].now < to
  }

  // ---- the invariant -----------------------------------------------------------------------------

  /** In the set and not on the way out: added and undecided, or admitted. */
  predicate Standing(limit: nat, y: System, id: Member) {
    id < |y.requests| && (y.requests[id].phase.Added? || Admitted(limit, y, id))
  }

  /** What the count of `last` must have seen: hits admitted no later that were still inside the window. */
  function SeenBy(limit: nat, windowMs: int, y: System, last: Member): set<Member>
    requires Admitted(limit, y, last)
  {
    set id | 0 <= id < |y.requests| && Admitted(limit, y, id)
             && y.requests[id].phase.rank <= y.requests[last].phase.rank
             && y.requests[id].now > y.requests[last].phase.at - windowMs
  }

  ghost predicate Clocks(y: System) {
    forall id :: 0 <= id < |y.requests| ==>
      y.requests[id].now <= y.clock
      && (y.requests[id].phase.Counted? ==> y.requests[id].phase.at <= y.clock && y.requests[id].phase.rank < y.counts)
  }

  /** The set holds only added members, each at its own clock read, and never a deleted one. */
  ghost predicate MembersOk(y: System) {
    forall m :: m in y.members ==>
      && m < |y.requests| && y.members[m] == y.requests[m].now
      && (y.requests[m].phase.Added? || y.requests[m].phase.Counted?)
  }

  /** Nothing young enough to matter is trimmed away: a cutoff never reaches past `clock - windowMs`. */
  ghost predicate StandingKept(limit: nat, windowMs: int, y: System) {
    forall id :: 0 <= id < |y.requests| && Standing(limit, y, id) && y.requests[id].now > y.clock - windowMs ==>
      id in y.members
  }

  ghost predicate CountsHold(limit: nat, windowMs: int, y: System) {
    forall id :: Admitted(limit, y, id) ==> |SeenBy(limit, windowMs, y, id)| <= limit
  }

  ghost predicate Inv(limit: nat, windowMs: int, y: System) {
    Clocks(y) && MembersOk(y) && StandingKept(limit, windowMs, y) && CountsHold(limit, windowMs, y)
  }

  lemma SeenFew(limit: nat, windowMs: int, y: System, last: Member, small: set<Member>)
    requires Admitted(limit, y, last) && SeenBy(limit, windowMs, y, last) <= small
    ensures |SeenBy(limit, windowMs, y, last)| <= |small|
  {
    SubsetSize(SeenBy(limit, windowMs, y, last), small);
  }

  /** Older counts are untouched by what comes after them. */
  lemma CountsHoldNext(limit: nat, windowMs: int, y: System, e: Event, id: Member)
    requires Inv(limit, windowMs, y) && Enabled(y, e)
    requires Admitted(limit, Next(limit, windowMs, y, e), id)
    ensures |SeenBy(limit, windowMs, Next(limit, windowMs, y, e), id)| <= limit
  {
    var y' := Next(limit, windowMs, y, e);
    if e.Count? && e.id == id {
      assert forall q :: q in SeenBy(limit, windowMs, y', id) ==> q == id || Standing(limit, y, q);
      SeenFew(limit, windowMs, y', id, y.members.Keys);
    } else {
      assert Admitted(limit, y, id);
      SeenFew(limit, windowMs, y', id, SeenBy(limit, windowMs, y, id));
    }
  }

  lemma StandingKeptNext(limit: nat, windowMs: int, y: System, e: Event, id: Member)
    requires Clocks(y) && MembersOk(y) && StandingKept(limit, windowMs, y) && Enabled(y, e)
    requires var y' := Next(limit, windowMs, y, e);
             Standing(limit, y', id) && y'.requests[id].now > y'.clock - windowMs
    ensures id in Next(limit, windowMs, y, e).members
  {
    if !(e.Add? && e.id == id) {
      assert Standing(limit, y, id);
      assert id in y.members;
      if e.Trim? {
        assert y.requests[id].now > e.at - windowMs;
        assert y.requests[e.id].now <= y.clock;
      }
    }
  }

  lemma ClocksNext(limit: nat, windowMs: int, y: System, e: Event)
    requires Clocks(y) && Enabled(y, e)
    ensures Clocks(Next(limit, windowMs, y, e))
  {
  }

  lemma MembersNext(limit: nat, windowMs: int, y: System, e: Event)
    requires MembersOk(y) && Enabled(y, e)
    ensures MembersOk(Next(limit, windowMs, y, e))
  {
  }

  lemma NextKeeps(limit: nat, windowMs: int, y: System, e: Event)
    requires Inv(limit, windowMs, y) && Enabled(y, e)
    ensures Inv(limit, windowMs, Next(limit, windowMs, y, e))
  {
    hide Next, SeenBy, Admitted, Standing, Clocks, MembersOk, Enabled;
    var y' := Next(limit, windowMs, y, e);
    ClocksNext(limit, windowMs, y, e);
    MembersNext(limit, windowMs, y, e);
    forall id | 0 <= id < |y'.requests| && Standing(limit, y', id) && y'.requests[id].now > y'.clock - windowMs
      ensures id in y'.members
    {
      StandingKeptNext(limit, windowMs, y, e, id);
    }
    forall id | Admitted(limit, y', id)
      ensures |SeenBy(limit, windowMs, y', id)| <= limit
    {
      CountsHoldNext(limit, windowMs, y, e, id);
    }
  }

  lemma {:induction false} RunKeeps(limit: nat, windowMs: int, y: System, events: seq<Event>)
    requires Inv(limit, windowMs, y) && Possible(limit, windowMs, y, events)
    ensures Inv(limit, windowMs, After(limit, windowMs, y, events))
    decreases |events|
  {
    hide Inv, Next, Enabled;
    if events != [] {
      NextKeeps(limit, windowMs, y, events[0]);
      RunKeeps(limit, windowMs, Next(limit, windowMs, y, events[0]), events[1..]);
    }
  }

  // ---- the ceiling -------------------------------------------------------------------------------

  /** The one that counted last. */
  lemma {:induction false} LastCounter(y: System, ids: set<Member>) returns (last: Member)
    requires ids != {} && forall id :: id in ids ==> id < |y.requests| && y.requests[id].phase.Counted?
    ensures last in ids && forall id :: id in ids ==> y.requests[id].phase.rank <= y.requests[last].phase.rank
  {
    var x :| x in ids;
    if ids == {x} {
      last := x;
    } else {
      var other := LastCounter(y, ids - {x});
      last := if y.requests[other].phase.rank < y.requests[x].phase.rank then x else other;
    }
  }

  /** Every admitted request was counted within `delay` of its clock read. */
  ghost predicate Prompt(limit: nat, y: System, delay: int) {
    forall id: Member :: Admitted(limit, y, id) ==> y.requests[id].phase.at <= y.requests[id].now + delay
  }

  /**
   The fleet-wide ceiling. However the trims, adds, counts and deletes of any number of instances
   interleave, and even if every compensating delete is lost, the hits admitted with a clock read in
   an interval no longer than the window less `delay` never exceed the limit, where `delay` bounds how
   long after its clock read an admitted request was counted.
   */
  lemma FleetCeiling(limit: nat, windowMs: int, events: seq<Event>, delay: int, from: int, to: int)
    requires Possible(limit, windowMs, EMPTY, events)
    requires to - from <= windowMs - delay
    requires Prompt(limit, After(limit, windowMs, EMPTY, events), delay)
    ensures |AdmittedIn(limit, After(limit, windowMs, EMPTY, events), from, to)| <= limit
  {
    RunKeeps(limit, windowMs, EMPTY, events);
    var y := After(limit, windowMs, EMPTY, events);
    var hits := AdmittedIn(limit, y, from, to);
    if hits != {} {
      var last := LastCounter(y, hits);
      assert Admitted(limit, y, last);
      SubsetSize(hits, SeenBy(limit, windowMs, y, last));
    }
  }

  // ---- and no longer interval is safe ------------------------------------------------------------

  /** `n` hits arrived, counted and were admitted, all at instant 0. */
  ghost predicate AllAtZero(y: System, n: nat) {
    && |y.requests| == n && y.clock == 0 && y.counts == n
    && (forall i :: 0 <= i < n ==> y.requests[i].now == 0 && y.requests[i].phase == Counted(i + 1, 0, i))
    && y.members == ZeroMembers(n)
  }

  function ZeroMembers(n: nat): (m: map<Member, int>)
    ensures |m| == n
    ensures forall i: Member :: i in m <==> i < n
    ensures forall i: Member :: i in m ==> m[i] == 0
  {
    if n == 0 then map[] else
      var less := ZeroMembers(n - 1);
      assert less[n - 1 := 0].Keys == less.Keys + {n - 1};
      less[n - 1 := 0]
  }

  ghost predicate Reaches(limit: nat, windowMs: int, events: seq<Event>, y: System) {
    Possible(limit, windowMs, EMPTY, events) && After(limit, windowMs, EMPTY, events) == y
  }

  lemma {:induction false} OneMoreStep(limit: nat, windowMs: int, from: System, events: seq<Event>, e: Event)
    requires Possible(limit, windowMs, from, events) && Enabled(After(limit, windowMs, from, events), e)
    ensures Possible(limit, windowMs, from, events + [e])
    ensures After(limit, windowMs, from, events + [e]) == Next(limit, windowMs, After(limit, windowMs, from, events), e)
    decreases |events|
  {
    hide Next, Enabled;
    if events == [] {
      assert ([] + [e])[1..] == [];
    } else {
      assert (events + [e])[1..] == events[1..] + [e];
      OneMoreStep(limit, windowMs, Next(limit, windowMs, from, events[0]), events[1..], e);
    }
  }

  lemma Reach(limit: nat, windowMs: int, events: seq<Event>, y: System, e: Event) returns (more: seq<Event>, y': System)
    requires Reaches(limit, windowMs, events, y) && Enabled(y, e)
    ensures y' == Next(limit, windowMs, y, e) && Reaches(limit, windowMs, more, y')
  {
    more, y' := events + [e], Next(limit, windowMs, y, e);
    OneMoreStep(limit, windowMs, EMPTY, events, e);
  }

  lemma ZeroHitCounts(limit: nat, windowMs: int, y: System, n: nat)
    requires AllAtZero(y, n) && windowMs >= 1
    ensures Enabled(y, Arrive(0))
    ensures
      var y1 := Next(limit, windowMs, y, Arrive(0));
      && Enabled(y1, Trim(n, 0))
      && var y2 := Next(limit, windowMs, y1, Trim(n, 0));
      && Enabled(y2, Add(n, 0))
      && var y3 := Next(limit, windowMs, y2, Add(n, 0));
      && Enabled(y3, Count(n, 0))
      && AllAtZero(Next(limit, windowMs, y3, Count(n, 0)), n + 1)
  {
    var y1 := Next(limit, windowMs, y, Arrive(0));
    var y2 := Next(limit, windowMs, y1, Trim(n, 0));
    assert y2.members == y.members;
    var y3 := Next(limit, windowMs, y2, Add(n, 0));
    assert y3.members == ZeroMembers(n + 1);
  }

  lemma {:induction false} FillAtZero(limit: nat, windowMs: int, n: nat) returns (events: seq<Event>, y: System)
    requires windowMs >= 1
    ensures Reaches(limit, windowMs, events, y) && AllAtZero(y, n)
  {
    events, y := [], EMPTY;
    if n > 0 {
      var before, y0 := FillAtZero(limit, windowMs, n - 1);
      ZeroHitCounts(limit, windowMs, y0, n - 1);
      hide Next, Enabled, AllAtZero, Reaches;
      events, y := Reach(limit, windowMs, before, y0, Arrive(0));
      events, y := Reach(limit, windowMs, events, y, Trim(n - 1, 0));
      events, y := Reach(limit, windowMs, events, y, Add(n - 1, 0));
      events, y := Reach(limit, windowMs, events, y, Count(n - 1, 0));
    }
  }

  lemma LateArrivals(limit: nat, windowMs: int, y: System, n: nat, late: int)
    requires AllAtZero(y, n) && 0 <= late <= windowMs
    ensures |y.requests| == n && Enabled(y, Arrive(late))
    ensures
      var y1 := Next(limit, windowMs, y, Arrive(late));
      && Enabled(y1, Arrive(windowMs))
      && var y2 := Next(limit, windowMs, y1, Arrive(windowMs));
      && Enabled(y2, Trim(n + 1, windowMs))
      && var y3 := Next(limit, windowMs, y2, Trim(n + 1, windowMs));
      && y3.members == map[] && y3.clock == windowMs && y3.counts == n
      && y3.requests == y.requests + [Request(late, Arrived), Request(windowMs, Trimmed)]
  {
    var y1 := Next(limit, windowMs, y, Arrive(late));
    var y2 := Next(limit, windowMs, y1, Arrive(windowMs));
    var y3 := Next(limit, windowMs, y2, Trim(n + 1, windowMs));
    assert y3.members == map[];
    assert y3.requests == y.requests + [Request(late, Arrived), Request(windowMs, Trimmed)];
  }

  lemma LateCount(limit: nat, windowMs: int, y: System, n: nat, late: int)
    requires y.members == map[] && y.clock == windowMs && n < |y.requests| && y.requests[n] == Request(late, Arrived)
    ensures Enabled(y, Trim(n, windowMs))
    ensures
      var y1 := Next(limit, windowMs, y, Trim(n, windowMs));
      && Enabled(y1, Add(n, windowMs))
      && var y2 := Next(limit, windowMs, y1, Add(n, windowMs));
      && Enabled(y2, Count(n, windowMs))
      && Next(limit, windowMs, y2, Count(n, windowMs)).requests
           == y.requests[n := Request(late, Counted(1, windowMs, y.counts))]
  {
    var y1 := Next(limit, windowMs, y, Trim(n, windowMs));
    assert y1.members == map[];
    var y2 := Next(limit, windowMs, y1, Add(n, windowMs));
    assert y2.members == map[n := late];
    assert |map[n := late]| == 1;
    assert Next(limit, windowMs, y2, Count(n, windowMs)).requests
        == y.requests[n := Request(late, Counted(1, windowMs, y.counts))];
  }

  /**
   For every limit, window and delay up to a window, one millisecond more than the safe length
   overshoots: `limit` hits are admitted at 0; one reads the clock `delay` before the window is up;
   another arrives when it is up and trims them away; then the late one is counted alone.
   */
  lemma CeilingNeedsTheDelayBound(limit: nat, windowMs: int, delay: int) returns (events: seq<Event>)
    requires limit >= 1 && windowMs >= 1 && 0 <= delay <= windowMs
    ensures Possible(limit, windowMs, EMPTY, events)
    ensures Prompt(limit, After(limit, windowMs, EMPTY, events), delay)
    ensures |AdmittedIn(limit, After(limit, windowMs, EMPTY, events), 0, windowMs - delay + 1)| == limit + 1
  {
    hide Next, Enabled, AllAtZero, Possible, After, AdmittedIn, Prompt;
    var late := windowMs - delay;
    var filled, y0 := FillAtZero(limit, windowMs, limit);
    LateArrivals(limit, windowMs, y0, limit, late);
    var y3, y6;
    events, y3 := LateRun(limit, windowMs, filled, y0, late);
    LateCount(limit, windowMs, y3, limit, late);
    events, y6 := LateCounted(limit, windowMs, events, y3, late);
    Overshoot(limit, windowMs, y0, y6, late);
  }

  lemma LateRun(limit: nat, windowMs: int, events: seq<Event>, y: System, late: int) returns (more: seq<Event>, y3: System)
    requires Reaches(limit, windowMs, events, y) && Enabled(y, Arrive(late))
    requires Enabled(Next(limit, windowMs, y, Arrive(late)), Arrive(windowMs))
    requires Enabled(Next(limit, windowMs, Next(limit, windowMs, y, Arrive(late)), Arrive(windowMs)), Trim(limit + 1, windowMs))
    ensures y3 == Next(limit, windowMs, Next(limit, windowMs, Next(limit, windowMs, y, Arrive(late)), Arrive(windowMs)), Trim(limit + 1, windowMs))
    ensures Reaches(limit, windowMs, more, y3)
  {
    hide Next, Enabled, Reaches;
    more, y3 := Reach(limit, windowMs, events, y, Arrive(late));
    more, y3 := Reach(limit, windowMs, more, y3, Arrive(windowMs));
    more, y3 := Reach(limit, windowMs, more, y3, Trim(limit + 1, windowMs));
  }

  lemma LateCounted(limit: nat, windowMs: int, events: seq<Event>, y: System, late: int) returns (more: seq<Event>, y3: System)
    requires Reaches(limit, windowMs, events, y) && Enabled(y, Trim(limit, windowMs))
    requires Enabled(Next(limit, windowMs, y, Trim(limit, windowMs)), Add(limit, windowMs))
    requires Enabled(Next(limit, windowMs, Next(limit, windowMs, y, Trim(limit, windowMs)), Add(limit, windowMs)), Count(limit, windowMs))
    ensures y3 == Next(limit, windowMs, Next(limit, windowMs, Next(limit, windowMs, y, Trim(limit, windowMs)), Add(limit, windowMs)), Count(limit, windowMs))
    ensures Reaches(limit, windowMs, more, y3)
  {
    hide Next, Enabled, Reaches;
    more, y3 := Reach(limit, windowMs, events, y, Trim(limit, windowMs));
    more, y3 := Reach(limit, windowMs, more, y3, Add(limit, windowMs));
    more, y3 := Reach(limit, windowMs, more, y3, Count(limit, windowMs));
  }

  lemma WhoIsAdmitted(limit: nat, windowMs: int, y0: System, y: System, late: int, i: Member)
    requires limit >= 1 && 0 <= late <= windowMs && AllAtZero(y0, limit)
    requires y.requests == y0.requests + [Request(late, Counted(1, windowMs, limit)), Request(windowMs, Trimmed)]
    ensures Admitted(limit, y, i) <==> i < limit + 1
    ensures i < limit + 1 ==> y.requests[i].now == (if i < limit then 0 else late)
    ensures i < limit + 1 ==> y.requests[i].phase.at <= y.requests[i].now + windowMs - late
  {
    hide ZeroMembers;
    if i < limit {
      assert y.requests[i] == y0.requests[i];
    }
  }

  lemma Overshoot(limit: nat, windowMs: int, y0: System, y: System, late: int)
    requires limit >= 1 && 0 <= late <= windowMs && AllAtZero(y0, limit)
    requires y.requests == y0.requests + [Request(late, Counted(1, windowMs, limit)), Request(windowMs, Trimmed)]
    ensures |AdmittedIn(limit, y, 0, late + 1)| == limit + 1
    ensures Prompt(limit, y, windowMs - late)
  {
    forall i: Member
      ensures Admitted(limit, y, i) <==> i < limit + 1
      ensures i < limit + 1 ==> 0 <= y.requests[i].now < late + 1
      ensures i < limit + 1 ==> y.requests[i].phase.at <= y.requests[i].now + windowMs - late
    {
      WhoIsAdmitted(limit, windowMs, y0, y, late, i);
    }
    hide Upto, Admitted, AllAtZero;
    assert AdmittedIn(limit, y, 0, late + 1) == Upto(limit + 1);
  }

  function Upto(n: nat): (s: set<Member>)
    ensures |s| == n
    ensures forall i: Member :: i in s <==> i < n
  {
    if n == 0 then {} else Upto(n - 1) + {n - 1}
  }

  /** The ceiling holds over every interval of length `len`, for every run whose admitted hits are that prompt. */
  ghost predicate SafeLength(limit: nat, windowMs: int, delay: nat, len: int) {
    forall events, from :: Possible(limit, windowMs, EMPTY, events) && Prompt(limit, After(limit, windowMs, EMPTY, events), delay) ==>
      Within(limit, windowMs, events, from, len)
  }

  ghost predicate Within(limit: nat, windowMs: int, events: seq<Event>, from: int, len: int)
    requires Possible(limit, windowMs, EMPTY, events)
  {
    |AdmittedIn(limit, After(limit, windowMs, EMPTY, events), from, from + len)| <= limit
  }

  /** Exactly which interval lengths are safe: those up to the window less the delay. */
  lemma SafeLengthIff(limit: nat, windowMs: int, delay: nat, len: int)
    requires limit >= 1 && windowMs >= 1
    ensures SafeLength(limit, windowMs, delay, len) <==> len <= Max(0, windowMs - delay)
  {
    if len <= windowMs - delay {
      forall events, from | Possible(limit, windowMs, EMPTY, events) && Prompt(limit, After(limit, windowMs, EMPTY, events), delay)
        ensures Within(limit, windowMs, events, from, len)
      {
        FleetCeiling(limit, windowMs, events, delay, from, from + len);
      }
    } else if len <= 0 {
      forall events, from | Possible(limit, windowMs, EMPTY, events)
        ensures Within(limit, windowMs, events, from, len)
      {
        assert AdmittedIn(limit, After(limit, windowMs, EMPTY, events), from, from + len) == {};
      }
    } else {
      var least := if delay <= windowMs then delay else windowMs;
      var events := CeilingNeedsTheDelayBound(limit, windowMs, least);
      var y := After(limit, windowMs, EMPTY, events);
      assert Prompt(limit, y, delay);
      SubsetSize(AdmittedIn(limit, y, 0, windowMs - least + 1), AdmittedIn(limit, y, 0, 0 + len));
      assert !Within(limit, windowMs, events, 0, len);
    }
  }

  // ---- what the set holds ------------------------------------------------------------------------

  /**
   Refused hits do not linger: once every counted-over request has sent its delete, the set holds
   admitted and undecided hits only, so the window drains to real load.
   */
  lemma OnlyAdmittedOnceDeletesLand(limit: nat, windowMs: int, events: seq<Event>, m: Member)
    requires Possible(limit, windowMs, EMPTY, events)
    requires var y := After(limit, windowMs, EMPTY, events);
             && m in y.members
             && forall id :: 0 <= id < |y.requests| && y.requests[id].phase.Counted? ==> y.requests[id].phase.count <= limit
    ensures var y := After(limit, windowMs, EMPTY, events);
            Standing(limit, y, m) && y.members[m] == y.requests[m].now
  {
    RunKeeps(limit, windowMs, EMPTY, events);
  }

  lemma AdmittedStays(limit: nat, windowMs: int, y: System, e: Event, id: Member)
    requires Enabled(y, e) && Admitted(limit, y, id)
    ensures
      var y' := Next(limit, windowMs, y, e);
      Admitted(limit, y', id) && y'.requests[id] == y.requests[id] && y'.clock == e.at
  {
  }

  /** A request is admitted once and for all, whatever any instance sends later. */
  lemma {:induction false} AdmissionIsFinal(limit: nat, windowMs: int, y: System, events: seq<Event>, id: Member)
    requires Possible(limit, windowMs, y, events) && Admitted(limit, y, id)
    ensures Admitted(limit, After(limit, windowMs, y, events), id)
    decreases |events|
  {
    hide Next, Enabled;
    if events != [] {
      AdmittedStays(limit, windowMs, y, events[0], id);
      AdmissionIsFinal(limit, windowMs, Next(limit, windowMs, y, events[0]), events[1..], id);
    }
  }

  /** A request counted over the limit can take its own member out, and that is all its delete does. */
  lemma RefusedTakesItsOwnOut(limit: nat, windowMs: int, y: System, id: Member, at: int)
    requires Enabled(y, Remove(id, at)) && y.requests[id].phase.count > limit
    ensures
      var y' := Next(limit, windowMs, y, Remove(id, at));
      && id !in y'.members && y'.members == y.members - {id}
      && |y'.requests| == |y.requests| && y'.requests[id].phase.Removed?
      && forall other :: 0 <= other < |y.requests| && other != id ==> y'.requests[other] == y.requests[other]
  {
  }

  // ---- the driver --------------------------------------------------------------------------------

  /** One request's commands with nothing in between; a refused hit sends its delete, which may be lost. */
  function HitAlone(limit: nat, windowMs: int, y: System, now: int, at: int, deleteLands: bool): (r: System)
    requires y.clock <= now <= at
    ensures r.clock == at
  {
    var id := |y.requests|;
    var arrived := Next(limit, windowMs, y, Arrive(now));
    var trimmed := Next(limit, windowMs, arrived, Trim(id, at));
    var added := Next(limit, windowMs, trimmed, Add(id, at));
    var counted := Next(limit, windowMs, added, Count(id, at));
    if Admitted(limit, counted, id) || !deleteLands then counted
    else Next(limit, windowMs, counted, Remove(id, at))
  }

  /**
   Alone, "add, count, undo" is "check the cap, then record": a hit is admitted exactly when fewer than
   `limit` members are inside the window, and a refused one leaves the trimmed window as it found it
   unless its delete is lost.
   */
  lemma HitAloneChecksBeforeRecording(limit: nat, windowMs: int, y: System, now: int, at: int, deleteLands: bool)
    requires MembersOk(y) && y.clock <= now <= at
    ensures var id := |y.requests|;
            var inside := WithoutScores(y.members, 0, now - windowMs);
            var y' := HitAlone(limit, windowMs, y, now, at, deleteLands);
            && (Admitted(limit, y', id) <==> |inside| < limit)
            && y'.members == (if |inside| < limit || !deleteLands then inside[id := now] else inside)
  {
    var id := |y.requests|;
    var inside := WithoutScores(y.members, 0, now - windowMs);
    assert id !in inside;
    hide WithoutScores, MembersOk;
    OneMore(inside, id, now);
    var arrived := Next(limit, windowMs, y, Arrive(now));
    var trimmed := Next(limit, windowMs, arrived, Trim(id, at));
    var added := Next(limit, windowMs, trimmed, Add(id, at));
    assert trimmed.members == inside && added.members == inside[id := now];
  }

  lemma HitAloneKeepsMembers(limit: nat, windowMs: int, y: System, now: int, at: int, deleteLands: bool)
    requires MembersOk(y) && y.clock <= now <= at
    ensures MembersOk(HitAlone(limit, windowMs, y, now, at, deleteLands))
  {
    hide MembersOk;
    var id := |y.requests|;
    var arrived := Next(limit, windowMs, y, Arrive(now));
    MembersNext(limit, windowMs, y, Arrive(now));
    var trimmed := Next(limit, windowMs, arrived, Trim(id, at));
    MembersNext(limit, windowMs, arrived, Trim(id, at));
    var added := Next(limit, windowMs, trimmed, Add(id, at));
    MembersNext(limit, windowMs, trimmed, Add(id, at));
    var counted := Next(limit, windowMs, added, Count(id, at));
    MembersNext(limit, windowMs, added, Count(id, at));
    if !Admitted(limit, counted, id) && deleteLands {
      MembersNext(limit, windowMs, counted, Remove(id, at));
    }
  }

  // ---- the wait a refusal reports ----------------------------------------------------------------

  /** Whole seconds until the set's oldest member leaves the window, and never none. */
  function SharedWait(oldest: int, windowMs: int, now: int): int {
    Max(1, CeilSeconds(oldest + windowMs - now))
  }

  /** The set just after the request's add, which is what its oldest-member read sees. */
  function JustAdded(windowMs: int, y: System, now: int): map<Member, int> {
    WithoutScores(y.members, 0, now - windowMs)[|y.requests| := now]
  }

  predicate IsOldest(members: map<Member, int>, first: Member) {
    first in members && members[first] >= 0 && forall m :: m in members ==> members[first] <= members[m]
  }

  predicate AdmitsAlone(limit: nat, windowMs: int, y: System, now: int, at: int)
    requires y.clock <= now <= at
  {
    Admitted(limit, HitAlone(limit, windowMs, y, now, at, true), |y.requests|)
  }

  lemma FreesWithTheOldest(members: map<Member, int>, oldest: int, cutoff: int)
    requires oldest >= 0 && forall m :: m in members ==> oldest <= members[m]
    ensures cutoff < oldest ==> WithoutScores(members, 0, cutoff) == members
    ensures cutoff >= oldest && oldest in members.Values ==> |WithoutScores(members, 0, cutoff)| < |members|
  {
    var left := WithoutScores(members, 0, cutoff);
    if cutoff < oldest {
      assert left == members;
    } else if oldest in members.Values {
      var first :| first in members && members[first] == oldest;
      SubsetSize(left.Keys, members.Keys - {first});
    }
  }

  /**
   What a refusal's wait is worth when nobody else comes, over every set, the overfull ones that lost
   or pending deletes leave included: a retry is refused before the oldest member expires, and admitted
   the moment it does if and only if fewer than `limit` members are newer than it. With the set just
   full that is from the expiry on, and the wait is the fewest whole seconds that reach it.
   */
  lemma SharedWaitIsExact(limit: nat, windowMs: int, y: System, now: int, at: int, deleteLands: bool,
                          later: int, laterAt: int, first: Member)
    requires MembersOk(y) && y.clock <= now <= at <= later <= laterAt && windowMs >= 1
    requires !AdmitsAlone(limit, windowMs, y, now, at)
    requires IsOldest(JustAdded(windowMs, y, now), first)
    ensures
      var y' := HitAlone(limit, windowMs, y, now, at, deleteLands);
      var oldest := JustAdded(windowMs, y, now)[first];
      var free := oldest + windowMs;
      && (later < free ==> !AdmitsAlone(limit, windowMs, y', later, laterAt))
      && (later == free ==>
            (AdmitsAlone(limit, windowMs, y', later, laterAt) <==> |WithoutScores(y'.members, 0, oldest)| < limit))
      && (|y'.members| == limit && first in y'.members ==>
            (AdmitsAlone(limit, windowMs, y', later, laterAt) <==> later >= free))
      && now + 1000 * (SharedWait(oldest, windowMs, now) - 1) < free <= now + 1000 * SharedWait(oldest, windowMs, now)
  {
    OldestIsLive(windowMs, y, now, first);
    hide HitAlone, MembersOk, WithoutScores, Admitted, SharedWait, IsOldest;
    HitAloneKeepsMembers(limit, windowMs, y, now, at, deleteLands);
    HitAloneChecksBeforeRecording(limit, windowMs, y, now, at, true);
    HitAloneChecksBeforeRecording(limit, windowMs, y, now, at, deleteLands);
    OneMore(WithoutScores(y.members, 0, now - windowMs), |y.requests|, now);
    var y' := HitAlone(limit, windowMs, y, now, at, deleteLands);
    var oldest := JustAdded(windowMs, y, now)[first];
    RetryAlone(limit, windowMs, y', later, laterAt, oldest);
    WaitReaches(oldest, windowMs, now);
  }

  lemma OldestIsLive(windowMs: int, y: System, now: int, first: Member)
    requires windowMs >= 1 && MembersOk(y) && IsOldest(JustAdded(windowMs, y, now), first)
    ensures |y.requests| !in WithoutScores(y.members, 0, now - windowMs)
    ensures JustAdded(windowMs, y, now)[first] > now - windowMs && JustAdded(windowMs, y, now)[first] >= 0
    ensures forall m :: m in JustAdded(windowMs, y, now) ==> JustAdded(windowMs, y, now)[first] <= JustAdded(windowMs, y, now)[m]
  {
  }

  lemma RetryAlone(limit: nat, windowMs: int, y: System, later: int, laterAt: int, oldest: int)
    requires MembersOk(y) && y.clock <= later <= laterAt && |y.members| >= limit
    requires oldest >= 0 && forall m :: m in y.members ==> oldest <= y.members[m]
    ensures later < oldest + windowMs ==> !AdmitsAlone(limit, windowMs, y, later, laterAt)
    ensures later == oldest + windowMs ==>
      (AdmitsAlone(limit, windowMs, y, later, laterAt) <==> |WithoutScores(y.members, 0, oldest)| < limit)
    ensures |y.members| == limit && oldest in y.members.Values ==>
      (AdmitsAlone(limit, windowMs, y, later, laterAt) <==> later >= oldest + windowMs)
  {
    hide HitAlone, MembersOk, WithoutScores, Admitted;
    HitAloneChecksBeforeRecording(limit, windowMs, y, later, laterAt, true);
    FreesWithTheOldest(y.members, oldest, later - windowMs);
  }

  lemma WaitReaches(oldest: int, windowMs: int, now: int)
    requires oldest > now - windowMs
    ensures
      var wait := SharedWait(oldest, windowMs, now);
      now + 1000 * (wait - 1) < oldest + windowMs <= now + 1000 * wait
  {
    CeilSecondsIs(oldest + windowMs - now);
  }

  lemma OneMore(m: map<Member, int>, id: Member, score: int)
    requires id !in m
    ensures |m[id := score]| == |m| + 1 && m[id := score] - {id} == m
  {
    assert m[id := score].Keys == m.Keys + {id};
  }

  datatype Reply = Reply(ok: bool, retryAfterSec: int)

  /** The breaker was open, the reply never came though `ran` commands had run, or it came. */
  datatype Fate = BreakerOpen | Unanswered(ran: nat) | Answered

  /** A request of which only the first `ran` commands are known to have run; it sends no delete. */
  function Begun(limit: nat, windowMs: int, y: System, now: int, at: int, ran: nat): System
    requires y.clock <= now <= at
  {
    var id := |y.requests|;
    var arrived := Next(limit, windowMs, y, Arrive(now));
    if ran == 0 then arrived
    else
      var trimmed := Next(limit, windowMs, arrived, Trim(id, at));
      if ran == 1 then trimmed
      else
        var added := Next(limit, windowMs, trimmed, Add(id, at));
        if ran == 2 then added else Next(limit, windowMs, added, Count(id, at))
  }

  /** A request's commands, in the order the pipeline sends them. */
  function Commands(id: Member, now: int, at: int): seq<Event> {
    [Arrive(now), Trim(id, at), Add(id, at), Count(id, at)]
  }

  /** An unanswered request has run a prefix of its commands, all of them when the reply alone was lost. */
  lemma BegunRanAPrefix(limit: nat, windowMs: int, y: System, now: int, at: int, ran: nat)
    requires y.clock <= now <= at
    ensures
      var done := Commands(|y.requests|, now, at)[..if ran < 3 then ran + 1 else 4];
      Possible(limit, windowMs, y, done) && Begun(limit, windowMs, y, now, at, ran) == After(limit, windowMs, y, done)
  {
    hide WithoutScores, Possible, After;
    var cmds := Commands(|y.requests|, now, at);
    NothingRun(limit, windowMs, y);
    assert cmds[..0] == [];
    NextCommand(limit, windowMs, y, cmds, 0);
    if ran >= 1 {
      NextCommand(limit, windowMs, y, cmds, 1);
    }
    if ran >= 2 {
      NextCommand(limit, windowMs, y, cmds, 2);
    }
    if ran >= 3 {
      NextCommand(limit, windowMs, y, cmds, 3);
    }
  }

  lemma NothingRun(limit: nat, windowMs: int, y: System)
    ensures Possible(limit, windowMs, y, []) && After(limit, windowMs, y, []) == y
  {
  }

  lemma NextCommand(limit: nat, windowMs: int, y: System, cmds: seq<Event>, n: nat)
    requires n < |cmds| && Possible(limit, windowMs, y, cmds[..n]) && Enabled(After(limit, windowMs, y, cmds[..n]), cmds[n])
    ensures Possible(limit, windowMs, y, cmds[..n + 1])
    ensures After(limit, windowMs, y, cmds[..n + 1]) == Next(limit, windowMs, After(limit, windowMs, y, cmds[..n]), cmds[n])
  {
    OneMoreStep(limit, windowMs, y, cmds[..n], cmds[n]);
    assert cmds[..n + 1] == cmds[..n] + [cmds[n]];
  }

  /** The remote sorted set of one key, with the request history its commands belong to. */
  class SharedWindow {
    const limit: nat
    const windowMs: int
    var members: map<Member, int>
    ghost var requests: seq<Request>
    ghost var clock: int
    ghost var counts: nat

    ghost function View(): System
      reads this
    {
      System(members, requests, clock, counts)
    }

    constructor (limit: nat, windowMs: int)
      ensures View() == EMPTY && this.limit == limit && this.windowMs == windowMs
    {
      this.limit, this.windowMs := limit, windowMs;
      members, requests, clock, counts := map[], [], 0, 0;
    }

    method ZRemRangeByScore(id: Member, now: int, ghost at: int)
      requires Enabled(View(), Trim(id, at)) && requests[id].now == now
      modifies this
      ensures View() == Next(limit, windowMs, old(View()), Trim(id, at))
    {
      var cutoff := now - windowMs;
      members := map m | m in members && !(0 <= members[m] <= cutoff) :: members[m];
      requests, clock := requests[id := requests[id].(phase := Trimmed)], at;
    }

    method ZAdd(id: Member, now: int, ghost at: int)
      requires Enabled(View(), Add(id, at)) && requests[id].now == now
      modifies this
      ensures View() == Next(limit, windowMs, old(View()), Add(id, at))
    {
      members := members[id := now];
      requests, clock := requests[id := requests[id].(phase := Added)], at;
    }

    method ZCard(id: Member, ghost at: int) returns (count: nat)
      requires Enabled(View(), Count(id, at))
      modifies this
      ensures View() == Next(limit, windowMs, old(View()), Count(id, at)) && count == |old(members)|
    {
      count := |members|;
      requests := requests[id := requests[id].(phase := Counted(count, at, counts))];
      clock, counts := at, counts + 1;
    }

    method ZRem(id: Member, ghost at: int)
      requires Enabled(View(), Remove(id, at)) && requests[id].phase.count > limit
      modifies this
      ensures View() == Next(limit, windowMs, old(View()), Remove(id, at))
    {
      members := members - {id};
      requests, clock := requests[id := requests[id].(phase := Removed(requests[id].phase.count))], at;
    }

    /** The oldest member's score, as `ZRANGE key 0 0 WITHSCORES` reads it. */
    method ZRangeFirst() returns (oldest: Option<int>)
      ensures oldest.None? <==> members == map[]
      ensures oldest.Some? ==>
        && (exists m :: m in members && members[m] == oldest.value)
        && forall m :: m in members ==> oldest.value <= members[m]
    {
      oldest := None;
      var rest := members.Keys;
      while rest != {}
        invariant rest <= members.Keys
        invariant oldest.None? <==> rest == members.Keys
        invariant oldest.Some? ==>
          && (exists m :: m in members && members[m] == oldest.value)
          && forall m :: m in members && m !in rest ==> oldest.value <= members[m]
        decreases |rest|
      {
        var m :| m in rest;
        if oldest.None? || members[m] < oldest.value {
          oldest := Some(members[m]);
        }
        rest := rest - {m};
      }
    }

    /**
     One request. Nothing is sent while the breaker is open; a reply that never comes leaves whatever
     commands had run; an answered request is admitted by its own count or told how long to wait.
     */
    method Hit(member: Member, now: int, ghost at: int, fate: Fate, deleteLands: bool) returns (reply: Option<Reply>)
      requires member == |requests| && clock <= now <= at
      modifies this
      ensures reply.None? <==> !fate.Answered?
      ensures fate.BreakerOpen? ==> View() == old(View())
      ensures fate.Unanswered? ==> View() == Begun(limit, windowMs, old(View()), now, at, fate.ran)
      ensures fate.Answered? ==> View() == HitAlone(limit, windowMs, old(View()), now, at, deleteLands)
      ensures fate.Answered? ==> (reply.value.ok <==> Admitted(limit, View(), member))
      ensures fate.Answered? && reply.value.ok ==> reply.value.retryAfterSec == 0
      ensures fate.Answered? && !reply.value.ok ==>
        exists oldest ::
          && oldest in old(JustAdded(windowMs, View(), now)).Values
          && (forall m :: m in old(JustAdded(windowMs, View(), now)) ==> oldest <= old(JustAdded(windowMs, View(), now))[m])
          && reply.value.retryAfterSec == SharedWait(oldest, windowMs, now)
    {
      if fate.BreakerOpen? {
        return None;
      }
      requests, clock := requests + [Request(now, Arrived)], now;
      if fate.Unanswered? && fate.ran == 0 {
        return None;
      }
      ZRemRangeByScore(member, now, at);
      if fate.Unanswered? && fate.ran == 1 {
        return None;
      }
      ZAdd(member, now, at);
      assert members == old(JustAdded(windowMs, View(), now));
      if fate.Unanswered? && fate.ran == 2 {
        return None;
      }
      var oldest := ZRangeFirst();
      var count := ZCard(member, at);
      if fate.Unanswered? {
        return None;
      }
      if count <= limit {
        return Some(Reply(true, 0));
      }
      assert member in old(JustAdded(windowMs, View(), now));
      assert oldest.value in old(JustAdded(windowMs, View(), now)).Values;
      if deleteLands {
        ZRem(member, at);
      }
      return Some(Reply(false, SharedWait(oldest.value, windowMs, now)));
    }
  }
}
