/**
 * The monthly public-scan allowance: one stored bucket of charge timestamps per caller, rewritten by
 * serialised read-decide-write transactions, with refunds keyed by the exact timestamp charged.
 */
module ScanQuota {
  import opened Common
  import opened SlidingWindow
  import StableSort

  const WINDOW_MS := 30 * 24 * 60 * 60 * 1000

  // ---------------------------------------------------------------------------------------------
  // The window arithmetic
  // ---------------------------------------------------------------------------------------------

  /** `hits.sort((a, b) => a - b)` */
  function Ascending(hits: seq<int>): seq<int> {
    StableSort.SortBy(hits, StableSort.Itself)
  }

  datatype Window = Window(recent: seq<int>, remaining: nat, resetAt: Option<int>)

  function WindowState(prior: seq<int>, now: int, limit: nat): Window {
    var recent := Ascending(Live(prior, now - WINDOW_MS));
    Window(recent, Max(0, limit - |recent|), if recent == [] then None else Some(recent[0] + WINDOW_MS))
  }

  datatype Decision = Decision(allowed: bool, remaining: nat, resetAt: Option<int>, hits: seq<int>)

  /** With a limit of zero and nothing recent there is no oldest hit, so the reset time is not a number: None. */
  function DecideQuota(prior: seq<int>, now: int, limit: nat): Decision {
    var recent := WindowState(prior, now, limit).recent;
    if |recent| >= limit then
      Decision(false, 0, if recent == [] then None else Some(recent[0] + WINDOW_MS), recent)
    else
      var hits := recent + [now];
      Decision(true, Max(0, limit - |hits|), Some(hits[0] + WINDOW_MS), hits)
  }

  /** An absent reset time, and a reset time of exactly zero, read as "a whole window". */
  function RetryAfterSec(resetAt: Option<int>, now: int): int {
    if resetAt.None? || resetAt.value == 0 then CeilSeconds(WINDOW_MS) else Max(1, CeilSeconds(resetAt.value - now))
  }

  /** Drops the first entry equal to `ts`; the same window when there is none. */
  function RemoveHit(hits: seq<int>, ts: int): seq<int> {
    if hits == [] then []
    else if hits[0] == ts then hits[1..]
    else [hits[0]] + RemoveHit(hits[1..], ts)
  }

  lemma AscendingSorts(hits: seq<int>)
    ensures Sorted(Ascending(hits)) && multiset(Ascending(hits)) == multiset(hits) && |Ascending(hits)| == |hits|
  {
    StableSort.SortSorts(hits, StableSort.Itself);
    StableSort.KeepsAll(hits, StableSort.Itself);
    assert forall i, j :: 0 <= i < j < |Ascending(hits)| ==> StableSort.Itself(Ascending(hits)[i]) <= StableSort.Itself(Ascending(hits)[j]);
  }

  lemma AscendingOfSorted(hits: seq<int>)
    requires Sorted(hits)
    ensures Ascending(hits) == hits
  {
    StableSort.SortOfSorted(hits, StableSort.Itself);
  }

  /** On any stored window, whatever its order, the recent part is its live entries in ascending order. */
  lemma RecentIsTheLivePart(prior: seq<int>, now: int, limit: nat)
    ensures
      var recent := WindowState(prior, now, limit).recent;
      && Sorted(recent)
      && multiset(recent) == multiset(Live(prior, now - WINDOW_MS))
      && |recent| == |Live(prior, now - WINDOW_MS)|
      && forall t :: t in recent <==> t in prior && t > now - WINDOW_MS
  {
    var live := Live(prior, now - WINDOW_MS);
    AscendingSorts(live);
    forall t
      ensures t in Ascending(live) <==> t in prior && t > now - WINDOW_MS
    {
      LiveMember(prior, now - WINDOW_MS, t);
      assert t in multiset(Ascending(live)) <==> t in multiset(live);
    }
  }

  lemma AllLive(hits: seq<int>, cutoff: int)
    requires forall t :: t in hits ==> t > cutoff
    ensures Live(hits, cutoff) == hits
  {
    assert forall i :: 0 <= i < |hits| ==> hits[i] in hits;
    LiveOfYoung(hits, cutoff);
  }

  // ---------------------------------------------------------------------------------------------
  // Peeking and waiting
  // ---------------------------------------------------------------------------------------------

  /** How many consumes in a row, all at `now`, the bucket would allow. */
  function AllowedInARow(prior: seq<int>, now: int, limit: nat, tries: nat): nat
    decreases tries
  {
    if tries == 0 || !DecideQuota(prior, now, limit).allowed then 0
    else 1 + AllowedInARow(DecideQuota(prior, now, limit).hits, now, limit, tries - 1)
  }

  /**
   * What a peek reports is exactly how many consumes the bucket would allow if they all came now: so a
   * peek above zero is a consume allowed, and the scan after the last reported one is refused.
   */
  lemma {:induction false} PeekCountsConsumes(prior: seq<int>, now: int, limit: nat, tries: nat)
    ensures
      var remaining := WindowState(prior, now, limit).remaining;
      AllowedInARow(prior, now, limit, tries) == if tries < remaining then tries else remaining
    decreases tries
  {
    hide Live, Ascending;
    var d := DecideQuota(prior, now, limit);
    RecentIsTheLivePart(prior, now, limit);
    if tries > 0 && d.allowed {
      RecentIsTheLivePart(d.hits, now, limit);
      AllLive(d.hits, now - WINDOW_MS);
      PeekCountsConsumes(d.hits, now, limit, tries - 1);
    }
  }

  lemma LiveLaterLength(prior: seq<int>, now: int, later: int)
    requires now <= later
    ensures |Live(prior, later - WINDOW_MS)| == |Live(WindowState(prior, now, 0).recent, later - WINDOW_MS)|
  {
    var early := Live(prior, now - WINDOW_MS);
    LiveTwice(prior, now - WINDOW_MS, later - WINDOW_MS);
    AscendingSorts(early);
    LiveMultiset(early, Ascending(early), later - WINDOW_MS);
    assert |multiset(Live(early, later - WINDOW_MS))| == |multiset(Live(Ascending(early), later - WINDOW_MS))|;
  }

  /**
   * The reset time of a denial, over every stored window: a lone retry is refused at every instant
   * before it, and allowed at it if and only if fewer than `limit` hits are newer than the oldest one.
   * When the window holds no more than `limit` hits, which every run keeps, retries are allowed from
   * exactly that instant on, and the seconds to wait are the fewest that reach it.
   */
  lemma ResetAtIsFirstAllowed(prior: seq<int>, now: int, limit: nat, later: int)
    requires !DecideQuota(prior, now, limit).allowed && DecideQuota(prior, now, limit).resetAt.Some? && now <= later
    ensures
      var resetAt := DecideQuota(prior, now, limit).resetAt.value;
      var recent := WindowState(prior, now, limit).recent;
      && resetAt > now
      && (later < resetAt ==> !DecideQuota(prior, later, limit).allowed)
      && (later == resetAt ==> (DecideQuota(prior, later, limit).allowed <==> |Live(recent, recent[0])| < limit))
      && (|recent| == limit ==> (DecideQuota(prior, later, limit).allowed <==> later >= resetAt))
      && (resetAt != 0 ==>
            var wait := RetryAfterSec(Some(resetAt), now);
            wait >= 1 && now + 1000 * (wait - 1) < resetAt <= now + 1000 * wait)
  {
    hide Live;
    var recent := WindowState(prior, now, limit).recent;
    RecentIsTheLivePart(prior, now, limit);
    RecentIsTheLivePart(prior, later, limit);
    LiveLaterLength(prior, now, later);
    assert recent[0] in recent;
    OldestLeavesFirst(recent, later - WINDOW_MS);
    CeilSecondsIs(recent[0] + WINDOW_MS - now);
  }

  /** Moving the cutoff keeps a sorted window whole until it reaches the oldest entry, and then it shrinks. */
  lemma OldestLeavesFirst(recent: seq<int>, cutoff: int)
    requires Sorted(recent) && recent != []
    ensures cutoff < recent[0] ==> Live(recent, cutoff) == recent
    ensures cutoff >= recent[0] ==> |Live(recent, cutoff)| < |recent|
  {
    var gone := LiveIsSuffix(recent, cutoff);
  }

  // ---------------------------------------------------------------------------------------------
  // Refunds
  // ---------------------------------------------------------------------------------------------

  /** A refund takes one entry of exactly its own timestamp, or nothing. */
  lemma {:induction false} RefundTakesItsOwn(hits: seq<int>, ts: int)
    ensures multiset(RemoveHit(hits, ts)) == multiset(hits)[ts := if ts in hits then multiset(hits)[ts] - 1 else 0]
    ensures |RemoveHit(hits, ts)| == |hits| - (if ts in hits then 1 else 0)
  {
    if hits != [] {
      assert hits == [hits[0]] + hits[1..];
      if hits[0] != ts {
        RefundTakesItsOwn(hits[1..], ts);
        assert ts in hits <==> ts in hits[1..];
      }
    }
  }

  /** Two refunds leave the same window whichever lands first, duplicates included. */
  lemma {:induction false} RefundsCommute(hits: seq<int>, a: int, b: int)
    ensures RemoveHit(RemoveHit(hits, a), b) == RemoveHit(RemoveHit(hits, b), a)
  {
    if hits != [] {
      RefundsCommute(hits[1..], a, b);
      if hits[0] != a && hits[0] != b {
        assert RemoveHit(hits, a)[1..] == RemoveHit(hits[1..], a);
        assert RemoveHit(hits, b)[1..] == RemoveHit(hits[1..], b);
      } else if hits[0] == a && a != b {
        assert RemoveHit(hits, b)[1..] == RemoveHit(hits[1..], b);
      } else if hits[0] == b && a != b {
        assert RemoveHit(hits, a)[1..] == RemoveHit(hits[1..], a);
      }
    }
  }

  /** In a sorted window the first entry of a value and the last leave the same rest. */
  lemma {:induction false} RemovingFirstOrLast(hits: seq<int>, ts: int)
    requires Sorted(hits)
    ensures RemoveHit(hits, ts) == Without(hits, ts)
  {
    if hits != [] {
      RemovingFirstOrLast(hits[1..], ts);
      if hits[0] == ts && ts in hits[1..] {
        assert hits[1] == ts;
        assert hits[1..] == [ts] + hits[1..][1..];
      } else if hits[0] != ts && ts !in hits[1..] {
        WithoutAbsent(hits[1..], ts);
      }
    }
  }

  // ---------------------------------------------------------------------------------------------
  // Runs of one bucket
  // ---------------------------------------------------------------------------------------------

  datatype Op = Consume(now: int) | Refund(chargedAt: int)

  /** What is stored, and every charge ever made that was not given back. */
  datatype Bucket = Bucket(row: seq<int>, standing: seq<int>)

  function Step(b: Bucket, op: Op, limit: nat): Bucket {
    match op
    case Consume(now) =>
      var d := DecideQuota(b.row, now, limit);
      if d.allowed then Bucket(d.hits, b.standing + [now]) else b
    case Refund(chargedAt) =>
      Bucket(RemoveHit(b.row, chargedAt), RemoveHit(b.standing, chargedAt))
  }

  function Run(b: Bucket, ops: seq<Op>, limit: nat): Bucket
    decreases |ops|
  {
    if ops == [] then b else Run(Step(b, ops[0], limit), ops[1..], limit)
  }

  /** The transactions commit in the order of the clock readings they carry, starting no earlier than `clock`. */
  ghost predicate Clocked(ops: seq<Op>, clock: int)
    decreases |ops|
  {
    if ops == [] then true
    else if ops[0].Refund? then Clocked(ops[1..], clock)
    else clock <= ops[0].now && Clocked(ops[1..], ops[0].now)
  }

  /** From `clock` on, what is stored answers for every standing charge; and standing charges are spaced out. */
  ghost predicate Tracks(b: Bucket, limit: nat, clock: int) {
    && Sorted(b.row) && Sorted(b.standing) && Spaced(b.standing, limit, WINDOW_MS)
    && (forall t :: t in b.standing ==> t <= clock)
    && (forall t :: t in b.row ==> t <= clock)
    && Live(b.row, clock - WINDOW_MS) == Live(b.standing, clock - WINDOW_MS)
  }

  lemma TracksLater(b: Bucket, limit: nat, clock: int, now: int)
    requires Tracks(b, limit, clock) && clock <= now
    ensures Tracks(b, limit, now)
  {
    LiveTwice(b.row, clock - WINDOW_MS, now - WINDOW_MS);
    LiveTwice(b.standing, clock - WINDOW_MS, now - WINDOW_MS);
  }

  lemma LiveIsSorted(hits: seq<int>, cutoff: int)
    requires Sorted(hits)
    ensures Sorted(Live(hits, cutoff))
  {
    var dead := LiveIsSuffix(hits, cutoff);
  }

  /** The verdict is the one the full history of standing charges would give. */
  lemma VerdictFromHistory(b: Bucket, limit: nat, now: int)
    requires Tracks(b, limit, now)
    ensures DecideQuota(b.row, now, limit).allowed <==> CountIn(b.standing, now - WINDOW_MS, now) < limit
    ensures CountIn(b.standing, now - WINDOW_MS, now) <= limit
    ensures WindowState(b.row, now, limit).recent == Live(b.standing, now - WINDOW_MS)
  {
    LiveIsSorted(b.row, now - WINDOW_MS);
    AscendingOfSorted(Live(b.row, now - WINDOW_MS));
    CountInOfLive(b.standing, now - WINDOW_MS, now);
    SpacedBoundsEveryInterval(b.standing, limit, WINDOW_MS, now - WINDOW_MS);
  }

  lemma ConsumeTracks(b: Bucket, limit: nat, now: int)
    requires Tracks(b, limit, now)
    ensures Tracks(Step(b, Consume(now), limit), limit, now)
  {
    hide Spaced, CountIn, Live, Ascending;
    VerdictFromHistory(b, limit, now);
    CountInOfLive(b.standing, now - WINDOW_MS, now);
    var recent := Live(b.standing, now - WINDOW_MS);
    if DecideQuota(b.row, now, limit).allowed {
      forall t | t in recent
        ensures now - WINDOW_MS < t <= now
      {
        LiveMember(b.standing, now - WINDOW_MS, t);
      }
      AdmitKeepsSpaced(b.standing, limit, WINDOW_MS, now, now);
      LiveAppend(b.standing, [now], now - WINDOW_MS);
      AllLive([now], now - WINDOW_MS);
      AllLive(recent + [now], now - WINDOW_MS);
      LiveIsSorted(b.standing + [now], now - WINDOW_MS);
    }
  }

  lemma RefundTracks(b: Bucket, limit: nat, clock: int, chargedAt: int)
    requires Tracks(b, limit, clock)
    ensures Tracks(Step(b, Refund(chargedAt), limit), limit, clock)
  {
    hide Live, Without, RemoveHit;
    RemovingFirstOrLast(b.row, chargedAt);
    RemovingFirstOrLast(b.standing, chargedAt);
    LiveWithout(b.row, chargedAt, clock - WINDOW_MS);
    LiveWithout(b.standing, chargedAt, clock - WINDOW_MS);
    WithoutKeeps(b.standing, chargedAt, limit, WINDOW_MS);
    WithoutKeeps(b.row, chargedAt, |b.row|, WINDOW_MS);
  }

  function LastClock(ops: seq<Op>, clock: int): int
    decreases |ops|
  {
    if ops == [] then clock else LastClock(ops[1..], if ops[0].Refund? then clock else ops[0].now)
  }

  lemma {:induction false} RunTracks(b: Bucket, ops: seq<Op>, limit: nat, clock: int)
    requires Tracks(b, limit, clock) && Clocked(ops, clock)
    ensures Tracks(Run(b, ops, limit), limit, LastClock(ops, clock))
    decreases |ops|
  {
    hide Tracks, Step;
    if ops != [] {
      if ops[0].Refund? {
        RefundTracks(b, limit, clock, ops[0].chargedAt);
        RunTracks(Step(b, ops[0], limit), ops[1..], limit, clock);
      } else {
        TracksLater(b, limit, clock, ops[0].now);
        ConsumeTracks(b, limit, ops[0].now);
        RunTracks(Step(b, ops[0], limit), ops[1..], limit, ops[0].now);
      }
    }
  }

  lemma EmptyTracks(limit: nat, clock: int)
    ensures Tracks(Bucket([], []), limit, clock)
  {
  }

  /** After any run, a denial names the first instant at which a lone retry is allowed. */
  lemma DenialNamesTheFirstFreeInstant(ops: seq<Op>, limit: nat, clock: int, now: int, later: int)
    requires Clocked(ops, clock) && LastClock(ops, clock) <= now <= later && limit >= 1
    requires !DecideQuota(Run(Bucket([], []), ops, limit).row, now, limit).allowed
    ensures
      var b := Run(Bucket([], []), ops, limit);
      var d := DecideQuota(b.row, now, limit);
      && d.resetAt.Some? && d.resetAt.value > now
      && (DecideQuota(b.row, later, limit).allowed <==> later >= d.resetAt.value)
  {
    var b := Run(Bucket([], []), ops, limit);
    EmptyTracks(limit, clock);
    RunTracks(Bucket([], []), ops, limit, clock);
    TracksLater(b, limit, LastClock(ops, clock), now);
    VerdictFromHistory(b, limit, now);
    CountInOfLive(b.standing, now - WINDOW_MS, now);
    ResetAtIsFirstAllowed(b.row, now, limit, later);
  }

  // ---------------------------------------------------------------------------------------------
  // Transactions that commit late
  //
  // The clock is read before the transaction, so a transaction can commit after one with a later
  // reading, and the trim by the later reading has then forgotten hits the earlier one should count.
  // ---------------------------------------------------------------------------------------------

  /** Every consume's reading is at most `d` behind the newest reading that committed before it. */
  ghost predicate Lagging(ops: seq<Op>, newest: int, d: nat)
    decreases |ops|
  {
    if ops == [] then true
    else if ops[0].Refund? then Lagging(ops[1..], newest, d)
    else newest - d <= ops[0].now && Lagging(ops[1..], Max(newest, ops[0].now), d)
  }

  lemma {:induction false} ClockOrderLagsByNothing(ops: seq<Op>, clock: int)
    ensures Clocked(ops, clock) <==> Lagging(ops, clock, 0)
    decreases |ops|
  {
    if ops != [] {
      if ops[0].Refund? {
        ClockOrderLagsByNothing(ops[1..], clock);
      } else if clock <= ops[0].now {
        ClockOrderLagsByNothing(ops[1..], ops[0].now);
      }
    }
  }

  lemma {:induction false} LaggingMore(ops: seq<Op>, newest: int, d: nat, more: nat)
    requires Lagging(ops, newest, d) && d <= more
    ensures Lagging(ops, newest, more)
    decreases |ops|
  {
    if ops != [] {
      LaggingMore(ops[1..], if ops[0].Refund? then newest else Max(newest, ops[0].now), d, more);
    }
  }

  /** Of every charge younger than the widest trim, the row still holds as many as stand. */
  ghost predicate Covers(b: Bucket, newest: int) {
    forall t :: t > newest - WINDOW_MS ==> multiset(b.standing)[t] <= multiset(b.row)[t]
  }

  ghost predicate Thin(b: Bucket, limit: nat, len: int) {
    forall from, to :: to - from <= len ==> CountIn(b.standing, from, to) <= limit
  }

  lemma CountInTaken(b: seq<int>, t: int, from: int, to: int)
    requires t in b && from < t <= to
    ensures multiset(Without(b, t)) == multiset(b) - multiset{t}
    ensures CountIn(b, from, to) == CountIn(Without(b, t), from, to) + 1
  {
    hide Without, CountIn;
    var at := WithoutShape(b, t);
    WithoutMultiset(b, t);
    CountInSplice(b, at, from, to);
  }

  lemma {:induction false} CountInDominated(a: seq<int>, b: seq<int>, from: int, to: int)
    requires forall t :: from < t <= to ==> multiset(a)[t] <= multiset(b)[t]
    ensures CountIn(a, from, to) <= CountIn(b, from, to)
    decreases |a|
  {
    hide Without;
    if a != [] {
      var t, rest := a[0], a[1..];
      assert a == [t] + rest;
      if from < t <= to {
        assert t in multiset(b);
        CountInTaken(b, t, from, to);
        CountInDominated(rest, Without(b, t), from, to);
      } else {
        CountInDominated(rest, b, from, to);
      }
    }
  }

  lemma {:induction false} CountInOfNewer(hits: seq<int>, from: int, to: int, cutoff: int)
    requires cutoff <= from
    ensures CountIn(hits, from, to) <= |Live(hits, cutoff)|
  {
    if hits != [] {
      CountInOfNewer(hits[1..], from, to, cutoff);
    }
  }

  lemma ConsumeCovers(b: Bucket, limit: nat, newest: int, now: int)
    requires Covers(b, newest)
    ensures Covers(Step(b, Consume(now), limit), Max(newest, now))
  {
    hide Live, Ascending;
    var live := Live(b.row, now - WINDOW_MS);
    AscendingSorts(live);
    forall t | t > Max(newest, now) - WINDOW_MS
      ensures multiset(Step(b, Consume(now), limit).standing)[t] <= multiset(Step(b, Consume(now), limit).row)[t]
    {
      LiveMultiplicity(b.row, now - WINDOW_MS, t);
    }
  }

  lemma ConsumeThins(b: Bucket, limit: nat, newest: int, d: nat, now: int)
    requires Covers(b, newest) && Thin(b, limit, WINDOW_MS - d) && newest - d <= now
    ensures Thin(Step(b, Consume(now), limit), limit, WINDOW_MS - d)
  {
    hide Live, Ascending, CountIn;
    RecentIsTheLivePart(b.row, now, limit);
    if DecideQuota(b.row, now, limit).allowed {
      forall from, to | to - from <= WINDOW_MS - d
        ensures CountIn(b.standing + [now], from, to) <= limit
      {
        CountInAppend(b.standing, [now], from, to);
        CountInOne(now, from, to);
        if from < now <= to {
          CountInDominated(b.standing, b.row, from, to);
          CountInOfNewer(b.row, from, to, now - WINDOW_MS);
        }
      }
    }
  }

  lemma CountInOne(t: int, from: int, to: int)
    ensures CountIn([t], from, to) == if from < t <= to then 1 else 0
  {
  }

  lemma RefundLags(b: Bucket, limit: nat, newest: int, len: int, chargedAt: int)
    requires Covers(b, newest) && Thin(b, limit, len)
    ensures Covers(Step(b, Refund(chargedAt), limit), newest) && Thin(Step(b, Refund(chargedAt), limit), limit, len)
  {
    hide RemoveHit, CountIn;
    RefundTakesItsOwn(b.row, chargedAt);
    RefundTakesItsOwn(b.standing, chargedAt);
    forall from, to | to - from <= len
      ensures CountIn(RemoveHit(b.standing, chargedAt), from, to) <= limit
    {
      CountInDominated(RemoveHit(b.standing, chargedAt), b.standing, from, to);
    }
  }

  lemma {:induction false} RunThins(b: Bucket, ops: seq<Op>, limit: nat, newest: int, d: nat)
    requires Covers(b, newest) && Thin(b, limit, WINDOW_MS - d) && Lagging(ops, newest, d)
    ensures Thin(Run(b, ops, limit), limit, WINDOW_MS - d)
    decreases |ops|
  {
    hide Covers, Thin, Step;
    if ops != [] {
      if ops[0].Refund? {
        RefundLags(b, limit, newest, WINDOW_MS - d, ops[0].chargedAt);
        RunThins(Step(b, ops[0], limit), ops[1..], limit, newest, d);
      } else {
        ConsumeCovers(b, limit, newest, ops[0].now);
        ConsumeThins(b, limit, newest, d, ops[0].now);
        RunThins(Step(b, ops[0], limit), ops[1..], limit, Max(newest, ops[0].now), d);
      }
    }
  }

  /**
   * Over every serialised run in which no reading commits more than `d` behind, no half-open interval
   * up to the window less `d` holds more standing charges than the limit. In clock order that is every
   * interval of a whole window.
   */
  lemma StandingChargesBounded(ops: seq<Op>, limit: nat, newest: int, d: nat, from: int, to: int)
    requires Lagging(ops, newest, d) && to - from <= WINDOW_MS - d
    ensures CountIn(Run(Bucket([], []), ops, limit).standing, from, to) <= limit
  {
    RunThins(Bucket([], []), ops, limit, newest, d);
  }

  // ---- and no longer interval is safe ------------------------------------------------------------

  function Zeros(n: nat): seq<int> {
    seq(n, _ => 0)
  }

  function ConsumesAtZero(n: nat): seq<Op> {
    seq(n, _ => Consume(0))
  }

  lemma {:induction false} RunOn(b: Bucket, first: seq<Op>, second: seq<Op>, limit: nat)
    ensures Run(b, first + second, limit) == Run(Run(b, first, limit), second, limit)
    decreases |first|
  {
    hide Step;
    if first == [] {
      assert first + second == second;
    } else {
      assert (first + second)[1..] == first[1..] + second;
      RunOn(Step(b, first[0], limit), first[1..], second, limit);
    }
  }

  lemma RunOne(b: Bucket, op: Op, limit: nat)
    ensures Run(b, [op], limit) == Step(b, op, limit)
  {
    hide Step;
    assert [op][1..] == [];
  }

  lemma AllowedStep(b: Bucket, now: int, limit: nat, live: seq<int>)
    requires Live(b.row, now - WINDOW_MS) == live && Sorted(live) && |live| < limit
    ensures Step(b, Consume(now), limit) == Bucket(live + [now], b.standing + [now])
  {
    AscendingOfSorted(live);
  }

  lemma {:induction false} FillsAtZero(n: nat, limit: nat)
    requires n <= limit
    ensures Run(Bucket([], []), ConsumesAtZero(n), limit) == Bucket(Zeros(n), Zeros(n))
  {
    hide Step;
    if n > 0 {
      FillsAtZero(n - 1, limit);
      assert ConsumesAtZero(n) == ConsumesAtZero(n - 1) + [Consume(0)];
      assert Zeros(n) == Zeros(n - 1) + [0];
      RunOn(Bucket([], []), ConsumesAtZero(n - 1), [Consume(0)], limit);
      RunOne(Bucket(Zeros(n - 1), Zeros(n - 1)), Consume(0), limit);
      LiveOfYoung(Zeros(n - 1), 0 - WINDOW_MS);
      AllowedStep(Bucket(Zeros(n - 1), Zeros(n - 1)), 0, limit, Zeros(n - 1));
    }
  }

  lemma {:induction false} CountInZeros(n: nat, to: int)
    requires to >= 0
    ensures CountIn(Zeros(n), -1, to) == n
  {
    if n > 0 {
      CountInZeros(n - 1, to);
      assert Zeros(n)[1..] == Zeros(n - 1);
    }
  }

  lemma {:induction false} ZerosLag(n: nat, rest: seq<Op>, d: nat)
    requires Lagging(rest, 0, d)
    ensures Lagging(ConsumesAtZero(n) + rest, 0, d)
  {
    if n == 0 {
      assert ConsumesAtZero(0) + rest == rest;
    } else {
      ZerosLag(n - 1, rest, d);
      assert (ConsumesAtZero(n) + rest)[1..] == ConsumesAtZero(n - 1) + rest;
    }
  }

  /** Fill the allowance at 0, let a reading of one window later trim it all, then commit one `d` behind that. */
  function LateTail(limit: nat, d: nat): seq<Op> {
    if d == 0 then [Consume(WINDOW_MS)]
    else if limit == 1 then [Consume(WINDOW_MS), Refund(WINDOW_MS), Consume(WINDOW_MS - d)]
    else [Consume(WINDOW_MS), Consume(WINDOW_MS - d)]
  }

  lemma TailLags(limit: nat, d: nat)
    ensures Lagging(LateTail(limit, d), 0, d)
  {
    var tail := LateTail(limit, d);
    assert d > 0 ==> |tail[1..]| >= 1;
    if d > 0 && limit == 1 {
      assert tail[1..][1..] == [Consume(WINDOW_MS - d)];
      assert Lagging([Consume(WINDOW_MS - d)], WINDOW_MS, d);
      assert Lagging(tail[1..], WINDOW_MS, d);
    } else if d > 0 {
      assert tail[1..] == [Consume(WINDOW_MS - d)];
      assert Lagging([Consume(WINDOW_MS - d)], WINDOW_MS, d);
    }
  }

  /** What the reading one window later leaves: the old charges trimmed, and still standing. */
  lemma LateReading(limit: nat)
    requires limit >= 1
    ensures Step(Bucket(Zeros(limit), Zeros(limit)), Consume(WINDOW_MS), limit) == Bucket([WINDOW_MS], Zeros(limit) + [WINDOW_MS])
  {
    hide Step, Live, Ascending, DecideQuota;
    LiveOfOld(Zeros(limit), WINDOW_MS - WINDOW_MS);
    AllowedStep(Bucket(Zeros(limit), Zeros(limit)), WINDOW_MS, limit, []);
    assert [] + [WINDOW_MS] == [WINDOW_MS];
  }

  lemma CountWithLate(limit: nat, now: int, to: int)
    requires 0 <= now <= to
    ensures CountIn(Zeros(limit) + [now], -1, to) == limit + 1
  {
    hide CountIn;
    CountInZeros(limit, to);
    CountInAppend(Zeros(limit), [now], -1, to);
    CountInOne(now, -1, to);
  }

  lemma TailOfOne(d: nat)
    requires 0 < d <= WINDOW_MS
    ensures Run(Bucket(Zeros(1), Zeros(1)), LateTail(1, d), 1).standing == Zeros(1) + [WINDOW_MS - d]
  {
    hide Step, Live, Ascending, DecideQuota, Zeros;
    var late := WINDOW_MS - d;
    LateReading(1);
    RefundUndoes(1);
    LiveOfYoung([], late - WINDOW_MS);
    AllowedStep(Bucket([], Zeros(1)), late, 1, []);
    RunOfThree(Bucket(Zeros(1), Zeros(1)), Consume(WINDOW_MS), Refund(WINDOW_MS), Consume(late), 1);
  }

  lemma TailOfMany(limit: nat, d: nat)
    requires limit >= 2 && 0 < d <= WINDOW_MS
    ensures Run(Bucket(Zeros(limit), Zeros(limit)), LateTail(limit, d), limit).standing == Zeros(limit) + [WINDOW_MS] + [WINDOW_MS - d]
  {
    hide Step, Live, Ascending, DecideQuota, Zeros;
    var late := WINDOW_MS - d;
    var b0, b1 := Bucket(Zeros(limit), Zeros(limit)), Bucket([WINDOW_MS], Zeros(limit) + [WINDOW_MS]);
    LateReading(limit);
    LiveOfYoung([WINDOW_MS], late - WINDOW_MS);
    AllowedStep(b1, late, limit, [WINDOW_MS]);
    RunOn(b0, [Consume(WINDOW_MS)], [Consume(late)], limit);
    RunOne(b0, Consume(WINDOW_MS), limit);
    RunOne(b1, Consume(late), limit);
    assert [Consume(WINDOW_MS)] + [Consume(late)] == LateTail(limit, d);
  }

  lemma TailOvershoots(limit: nat, d: nat)
    requires limit >= 1 && d <= WINDOW_MS
    ensures
      var end := Run(Bucket(Zeros(limit), Zeros(limit)), LateTail(limit, d), limit).standing;
      CountIn(end, -1, WINDOW_MS - d) == limit + 1
  {
    hide Step, Run, CountIn, Zeros;
    var late := WINDOW_MS - d;
    CountWithLate(limit, late, late);
    if d == 0 {
      LateReading(limit);
      RunOne(Bucket(Zeros(limit), Zeros(limit)), Consume(WINDOW_MS), limit);
    } else if limit == 1 {
      TailOfOne(d);
    } else {
      TailOfMany(limit, d);
      CountInZeros(limit, late);
      CountInAppend(Zeros(limit), [WINDOW_MS], -1, late);
      CountInOne(WINDOW_MS, -1, late);
      CountInAppend(Zeros(limit) + [WINDOW_MS], [late], -1, late);
      CountInOne(late, -1, late);
    }
  }

  lemma RefundUndoes(limit: nat)
    requires limit == 1
    ensures Step(Bucket([WINDOW_MS], Zeros(limit) + [WINDOW_MS]), Refund(WINDOW_MS), limit) == Bucket([], Zeros(limit))
  {
    assert Zeros(1) + [WINDOW_MS] == [0, WINDOW_MS];
    assert [0, WINDOW_MS][1..] == [WINDOW_MS] && [WINDOW_MS][1..] == [];
    assert RemoveHit([WINDOW_MS], WINDOW_MS) == [];
  }

  lemma RunOfThree(b: Bucket, o1: Op, o2: Op, o3: Op, limit: nat)
    ensures Run(b, [o1, o2, o3], limit) == Step(Step(Step(b, o1, limit), o2, limit), o3, limit)
  {
    hide Step;
    assert [o1, o2, o3] == [o1] + ([o2] + [o3]);
    RunOn(b, [o1], [o2] + [o3], limit);
    RunOn(Step(b, o1, limit), [o2], [o3], limit);
    RunOne(b, o1, limit);
    RunOne(Step(b, o1, limit), o2, limit);
    RunOne(Step(Step(b, o1, limit), o2, limit), o3, limit);
  }

  /** For every limit and every lateness up to a window, one millisecond more than the safe length overshoots. */
  lemma LateTransactionOvershoots(limit: nat, d: nat) returns (ops: seq<Op>)
    requires limit >= 1 && d <= WINDOW_MS
    ensures Lagging(ops, 0, d)
    ensures CountIn(Run(Bucket([], []), ops, limit).standing, -1, WINDOW_MS - d) == limit + 1
  {
    hide Step, CountIn, LateTail, Zeros;
    ops := ConsumesAtZero(limit) + LateTail(limit, d);
    TailLags(limit, d);
    ZerosLag(limit, LateTail(limit, d), d);
    FillsAtZero(limit, limit);
    RunOn(Bucket([], []), ConsumesAtZero(limit), LateTail(limit, d), limit);
    TailOvershoots(limit, d);
  }

  /** After `ops` from an empty bucket, the interval of length `len` after `from` is within the limit. */
  predicate Within(ops: seq<Op>, limit: nat, from: int, len: int) {
    CountIn(Run(Bucket([], []), ops, limit).standing, from, from + len) <= limit
  }

  /** The limit holds over every interval of length `len`, for every run that lags by at most `d`. */
  ghost predicate SafeLength(limit: nat, d: nat, len: int) {
    forall ops, newest, from :: Lagging(ops, newest, d) ==> Within(ops, limit, from, len)
  }

  lemma {:induction false} CountInWider(hits: seq<int>, from: int, to: int, wider: int)
    requires to <= wider
    ensures CountIn(hits, from, to) <= CountIn(hits, from, wider)
  {
    if hits != [] {
      CountInWider(hits[1..], from, to, wider);
    }
  }

  lemma {:induction false} NothingAtLimitZero(b: Bucket, ops: seq<Op>)
    requires b.standing == []
    ensures Run(b, ops, 0).standing == []
    decreases |ops|
  {
    if ops != [] {
      NothingAtLimitZero(Step(b, ops[0], 0), ops[1..]);
    }
  }

  /** Exactly which interval lengths are safe: those up to the window less the lateness, or any if nothing is allowed. */
  lemma SafeLengthIff(limit: nat, d: nat, len: int)
    ensures SafeLength(limit, d, len) <==> limit == 0 || len <= Max(0, WINDOW_MS - d)
  {
    if limit == 0 {
      forall ops, newest, from | Lagging(ops, newest, d)
        ensures Within(ops, limit, from, len)
      {
        NothingAtLimitZero(Bucket([], []), ops);
      }
    } else if len <= WINDOW_MS - d {
      forall ops, newest, from | Lagging(ops, newest, d)
        ensures Within(ops, limit, from, len)
      {
        StandingChargesBounded(ops, limit, newest, d, from, from + len);
      }
    } else if len <= 0 {
      forall ops, newest, from | Lagging(ops, newest, d)
        ensures Within(ops, limit, from, len)
      {
        CountInNone(Run(Bucket([], []), ops, limit).standing, from, from + len);
      }
    } else {
      var least := if d <= WINDOW_MS then d else WINDOW_MS;
      var ops := LateTransactionOvershoots(limit, least);
      LaggingMore(ops, 0, least, d);
      CountInWider(Run(Bucket([], []), ops, limit).standing, -1, WINDOW_MS - least, -1 + len);
      assert !Within(ops, limit, -1, len);
    }
  }

  // ---------------------------------------------------------------------------------------------
  // The store
  // ---------------------------------------------------------------------------------------------

  /** Whether the gate applies: it may be off or unkeyable, and the store may fail, which undoes the transaction. */
  datatype Gate = Enforceable | Inactive | StoreFails

  datatype QuotaResult =
    QuotaResult(enforced: bool, allowed: bool, remaining: nat, retryAfterSec: int, resetAt: Option<int>, chargedAt: Option<int>)

  predicate IsOldest(stamps: seq<int>, t: int) {
    t in stamps && forall u :: u in stamps ==> t <= u
  }

  /** A window resets a whole window after its oldest live hit, and never when it has none. */
  predicate ResetsWithOldest(live: seq<int>, resetAt: Option<int>) {
    if live == [] then resetAt.None? else resetAt.Some? && IsOldest(live, resetAt.value - WINDOW_MS)
  }

  /**
   * What an allowed scan is told: its charge joins the live ones, one fewer remains, and the reset time is
   * the first instant at which any of them lapses, its own if it is alone. A peek is told the same of the
   * charges there are.
   */
  lemma ResetIsTheFirstLapse(prior: seq<int>, now: int, limit: nat, later: int)
    ensures ResetsWithOldest(Live(prior, now - WINDOW_MS), WindowState(prior, now, limit).resetAt)
    ensures
      var d := DecideQuota(prior, now, limit);
      var live := Live(prior, now - WINDOW_MS);
      d.allowed ==>
        && multiset(d.hits) == multiset(live) + multiset{now} && d.remaining == limit - |live| - 1
        && ResetsWithOldest(if live == [] then [now] else live, d.resetAt)
        && ((forall t :: t in prior ==> t <= now) && now <= later ==>
              (|Live(d.hits, later - WINDOW_MS)| == |d.hits| <==> later < d.resetAt.value))
  {
    hide Live, Ascending;
    var d := DecideQuota(prior, now, limit);
    var live := Live(prior, now - WINDOW_MS);
    var recent := WindowState(prior, now, limit).recent;
    RecentIsTheLivePart(prior, now, limit);
    LiveMembers(prior, now - WINDOW_MS);
    assert recent != [] ==> recent[0] in recent;
    assert forall t :: t in recent <==> t in live;
    assert forall t :: t in recent ==> recent[0] <= t by { assert Sorted(recent); }
    if d.allowed && (forall t :: t in prior ==> t <= now) && now <= later {
      LatestGoesLast(recent, now);
      OldestLeavesFirst(d.hits, later - WINDOW_MS);
    }
  }

  lemma LatestGoesLast(hits: seq<int>, now: int)
    requires Sorted(hits) && forall t :: t in hits ==> t <= now
    ensures Sorted(hits + [now])
  {
    assert forall i :: 0 <= i < |hits| ==> hits[i] in hits;
  }

  lemma LiveMembers(hits: seq<int>, cutoff: int)
    ensures forall t :: t in Live(hits, cutoff) <==> t in hits && t > cutoff
  {
    forall t
      ensures t in Live(hits, cutoff) <==> t in hits && t > cutoff
    {
      LiveMember(hits, cutoff, t);
    }
  }

  lemma DecisionMeans(prior: seq<int>, now: int, limit: nat)
    ensures
      var d := DecideQuota(prior, now, limit);
      && (d.allowed <==> |Live(prior, now - WINDOW_MS)| < limit)
      && (d.allowed ==> d.remaining == WindowState(d.hits, now, limit).remaining)
      && (!d.allowed ==> d.remaining == 0 && d.resetAt == WindowState(prior, now, limit).resetAt)
  {
    hide Live, Ascending;
    var d := DecideQuota(prior, now, limit);
    RecentIsTheLivePart(prior, now, limit);
    if d.allowed {
      RecentIsTheLivePart(d.hits, now, limit);
      AllLive(d.hits, now - WINDOW_MS);
    }
  }

  lemma WaitOfADenial(prior: seq<int>, now: int, limit: nat)
    requires !DecideQuota(prior, now, limit).allowed
    ensures
      var resetAt := DecideQuota(prior, now, limit).resetAt;
      var wait := RetryAfterSec(resetAt, now);
      if resetAt.None? || resetAt.value == 0 then wait == 30 * 24 * 60 * 60
      else wait >= 1 && now + 1000 * (wait - 1) < resetAt.value <= now + 1000 * wait
  {
    hide DecideQuota, WindowState, Live;
    if DecideQuota(prior, now, limit).resetAt.Some? {
      ResetAtIsFirstAllowed(prior, now, limit, now);
    }
  }

  class QuotaStore {
    var rows: map<string, seq<int>>

    ghost function Stored(key: string): seq<int>
      reads this
    {
      if key in rows then rows[key] else []
    }

    constructor ()
      ensures rows == map[]
    {
      rows := map[];
    }

    /** One transaction: the decision is made from what is stored and, only when allowed, written back. */
    method Consume(key: string, now: int, limit: nat, gate: Gate) returns (r: QuotaResult)
      modifies this
      ensures r.enforced <==> gate.Enforceable?
      ensures !r.enforced ==> r.allowed && r.remaining == limit && r.chargedAt.None? && rows == old(rows)
      ensures r.enforced ==> (r.allowed <==> |Live(old(Stored(key)), now - WINDOW_MS)| < limit)
      ensures r.enforced ==> r.chargedAt == if r.allowed then Some(now) else None
      ensures r.enforced ==> forall standing ::
        Step(Bucket(old(Stored(key)), standing), Op.Consume(now), limit)
          == Bucket(Stored(key), if r.allowed then standing + [now] else standing)
      ensures r.enforced && r.allowed ==> r.remaining == limit - |Live(old(Stored(key)), now - WINDOW_MS)| - 1 && r.retryAfterSec == 0
      ensures r.enforced && r.allowed ==>
        var live := Live(old(Stored(key)), now - WINDOW_MS);
        ResetsWithOldest(if live == [] then [now] else live, r.resetAt)
      ensures r.enforced && !r.allowed ==> rows == old(rows) && r.remaining == 0
      ensures r.enforced && !r.allowed ==>
        if r.resetAt.None? || r.resetAt.value == 0 then r.retryAfterSec == 30 * 24 * 60 * 60
        else
          var wait := r.retryAfterSec;
          wait >= 1 && now + 1000 * (wait - 1) < r.resetAt.value <= now + 1000 * wait
      ensures r.enforced && !r.allowed ==> ResetsWithOldest(Live(old(Stored(key)), now - WINDOW_MS), r.resetAt)
      ensures forall other :: other != key ==> Stored(other) == old(Stored(other))
    {
      hide Live, WindowState, Ascending, RetryAfterSec, DecideQuota, ResetsWithOldest;
      if !gate.Enforceable? {
        return QuotaResult(false, true, limit, 0, None, None);
      }
      var prior := if key in rows then rows[key] else [];
      DecisionMeans(prior, now, limit);
      ResetIsTheFirstLapse(prior, now, limit, now);
      var decision := DecideQuota(prior, now, limit);
      if !decision.allowed {
        WaitOfADenial(prior, now, limit);
        return QuotaResult(true, false, 0, RetryAfterSec(decision.resetAt, now), decision.resetAt, None);
      }
      rows := rows[key := decision.hits];
      return QuotaResult(true, true, decision.remaining, 0, decision.resetAt, Some(now));
    }

    /** What a peek promises is what the same instant's consumes would deliver. */
    method Peek(key: string, now: int, limit: nat, gate: Gate) returns (remaining: nat, resetAt: Option<int>)
      ensures !gate.Enforceable? ==> remaining == limit && resetAt.None?
      ensures gate.Enforceable? ==> ResetsWithOldest(Live(Stored(key), now - WINDOW_MS), resetAt)
      ensures gate.Enforceable? ==> AllowedInARow(Stored(key), now, limit, limit) == remaining
    {
      if !gate.Enforceable? {
        return limit, None;
      }
      var prior := if key in rows then rows[key] else [];
      PeekCountsConsumes(prior, now, limit, limit);
      ResetIsTheFirstLapse(prior, now, limit, now);
      return WindowState(prior, now, limit).remaining, WindowState(prior, now, limit).resetAt;
    }

    /** Without the timestamp it charged, a refund touches nothing; with it, at most that one entry goes. */
    method Refund(key: string, chargedAt: Option<int>, gate: Gate)
      modifies this
      ensures !gate.Enforceable? || chargedAt.None? ==> rows == old(rows)
      ensures gate.Enforceable? && chargedAt.Some? ==>
        && Stored(key) == RemoveHit(old(Stored(key)), chargedAt.value)
        && |Stored(key)| == |old(Stored(key))| - (if chargedAt.value in old(Stored(key)) then 1 else 0)
      ensures forall other :: other != key ==> Stored(other) == old(Stored(other))
    {
      if !gate.Enforceable? || chargedAt.None? {
        return;
      }
      if key in rows && rows[key] != [] {
        RefundTakesItsOwn(rows[key], chargedAt.value);
        rows := rows[key := RemoveHit(rows[key], chargedAt.value)];
      }
    }
  }
}
