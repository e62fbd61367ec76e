/**
 * The one door alerts leave through: read the org's sink, claim a slot, dispatch, release the slot if
 * the dispatch failed, and record why an alert did not go out. Deliveries interleave at every await;
 * clock readings are arbitrary, because the cooldown only ever lets stamps move forwards.
 */
module AlertDoor {
  import opened Common

  // ---------------------------------------------------------------------------------------------
  // The two kinds of claim
  // ---------------------------------------------------------------------------------------------

  /** Whether a key may alert now, and the stamps afterwards. A cooldown of zero or less throttles nothing. */
  function ClaimKey(stamps: map<string, int>, key: string, cooldownMs: int, now: int): (bool, map<string, int>) {
    if cooldownMs <= 0 then (true, stamps)
    else if key in stamps && now - stamps[key] < cooldownMs then (false, stamps)
    else (true, stamps[key := now])
  }

  /** One key of a batch and the clock reading its claim made. */
  datatype Try = Try(key: string, now: int)

  /** A batch claims its keys one by one; the won tries come back in order. */
  function ClaimKeys(stamps: map<string, int>, batch: seq<Try>, cooldownMs: int): (seq<Try>, map<string, int>)
    decreases |batch|
  {
    if batch == [] then ([], stamps)
    else
      var (won, after) := ClaimKey(stamps, batch[0].key, cooldownMs, batch[0].now);
      var (rest, end) := ClaimKeys(after, batch[1..], cooldownMs);
      (if won then [batch[0]] + rest else rest, end)
  }

  /** A durable marker: for which action and org, when it was written, from when its claim looked, and if it was cancelled. */
  datatype Marker = Marker(scope: string, at: int, since: int, released: bool)

  predicate WindowTaken(markers: seq<Marker>, scope: string, since: int) {
    exists i :: 0 <= i < |markers| && markers[i].scope == scope && markers[i].at >= since && !markers[i].released
  }

  // ---------------------------------------------------------------------------------------------
  // Why an alert did not go out
  // ---------------------------------------------------------------------------------------------

  datatype Reason = SinkUnreadable | NoSink | Cooldown | DispatchFailed

  /** What the door knows when it decides the reason; a missing field was never reached. */
  datatype Outcome = Outcome(eligible: Option<bool>, sinkUnreadable: bool, resolved: Option<bool>, claimed: Option<bool>,
                             dispatched: bool)

  function AlertOutcome(s: Outcome): Option<Reason> {
    if s.dispatched then None
    else if s.eligible == Some(false) then None
    else if s.sinkUnreadable then Some(SinkUnreadable)
    else if s.resolved == Some(false) then Some(NoSink)
    else if s.claimed == Some(false) then Some(Cooldown)
    else Some(DispatchFailed)
  }

  /** The sink as read: the read failed, or it gave the org's own sink, which may be genuinely empty. */
  datatype SinkRead = ReadFailed | ReadOk(own: Option<string>)

  /** Only an org whose sink is genuinely empty falls back to the deployment's own. */
  function Target(sink: SinkRead, deployment: Option<string>): Option<string> {
    match sink
    case ReadFailed => None
    case ReadOk(own) => if own.Some? then own else deployment
  }

  // ---------------------------------------------------------------------------------------------
  // Interleaved deliveries
  // ---------------------------------------------------------------------------------------------

  /** What one delivery has come to: its sink resolved, its dispatch out, its failed dispatch's window still held, or over. */
  datatype Phase =
    | Resolved(target: string)
    | Sending(marker: Option<nat>, target: string)
    | Releasing(held: nat)
    | Done(marker: Option<nat>, claimed: bool, delivered: bool, releaseLost: bool, outcome: Option<Reason>)

  /** One alert, with what it read; an ineligible one is taken to have read nothing worth keeping. */
  datatype Delivery = Delivery(eligible: bool, sink: SinkRead, deployment: Option<string>, phase: Phase)

  datatype Dispatch = Dispatch(id: nat, target: string)

  /** `sent` lists every key-and-time a dispatch was made under, and `dispatches` where each went, in claim order. */
  datatype World = World(stamps: map<string, int>, markers: seq<Marker>, deliveries: map<nat, Delivery>, sent: seq<Try>,
                         dispatches: seq<Dispatch>)

  datatype Event =
    | Read(id: nat, eligible: bool, sink: SinkRead, deployment: Option<string>)
    | TakeKeys(id: nat, batch: seq<Try>)
    | TakeWindow(id: nat, scope: string, since: int, at: int, throws: bool)
    | TakeNothing(id: nat)
    | Settle(id: nat, delivered: bool)
    | Release(id: nat, lands: bool)

  predicate Possible(w: World, e: Event) {
    match e
    case Read(id, _, _, _) => id !in w.deliveries
    case TakeKeys(id, _) => id in w.deliveries && w.deliveries[id].phase.Resolved?
    case TakeWindow(id, _, _, _, _) => id in w.deliveries && w.deliveries[id].phase.Resolved?
    case TakeNothing(id) => id in w.deliveries && w.deliveries[id].phase.Resolved?
    case Settle(id, _) => id in w.deliveries && w.deliveries[id].phase.Sending?
    case Release(id, _) => id in w.deliveries && w.deliveries[id].phase.Releasing? && w.deliveries[id].phase.held < |w.markers|
  }

  /** The sink an alert may go to: none unless it is eligible, its read succeeded and something is configured. */
  function TargetOf(eligible: bool, sink: SinkRead, deployment: Option<string>): Option<string> {
    if eligible then Target(sink, deployment) else None
  }

  function Unsent(eligible: bool, sink: SinkRead, resolved: bool): (p: Phase)
    ensures p.Done? && p.marker.None? && !p.claimed && !p.delivered && !p.releaseLost
  {
    Done(None, false, false, false,
         AlertOutcome(Outcome(Some(eligible), eligible && sink.ReadFailed?, Some(resolved), Some(false), false)))
  }

  function AfterDispatch(delivered: bool): Option<Reason> {
    AlertOutcome(Outcome(Some(true), false, Some(true), Some(true), delivered))
  }

  function Moved(w: World, id: nat, phase: Phase): World
    requires id in w.deliveries
  {
    w.(deliveries := w.deliveries[id := w.deliveries[id].(phase := phase)])
  }

  /** The slot is won: the message is built and goes out. */
  function SentOut(w: World, id: nat, marker: Option<nat>): World
    requires id in w.deliveries && w.deliveries[id].phase.Resolved?
  {
    var target := w.deliveries[id].phase.target;
    Moved(w, id, Sending(marker, target)).(dispatches := w.dispatches + [Dispatch(id, target)])
  }

  function Next(w: World, e: Event, cooldownMs: int): World
    requires Possible(w, e)
  {
    match e
    case Read(id, eligible, sink, deployment) =>
      var target := TargetOf(eligible, sink, deployment);
      var phase := if target.Some? then Resolved(target.value) else Unsent(eligible, sink, false);
      w.(deliveries := w.deliveries[id := Delivery(eligible, sink, deployment, phase)])
    case TakeKeys(id, batch) =>
      var (won, stamps) := ClaimKeys(w.stamps, batch, cooldownMs);
      if won == [] then Moved(w, id, Unsent(true, w.deliveries[id].sink, true)).(stamps := stamps)
      else SentOut(w, id, None).(stamps := stamps, sent := w.sent + won)
    case TakeWindow(id, scope, since, at, throws) =>
      if throws then Moved(w, id, Done(None, false, false, false, None))
      else if WindowTaken(w.markers, scope, since) then Moved(w, id, Unsent(true, w.deliveries[id].sink, true))
      else SentOut(w, id, Some(|w.markers|)).(markers := w.markers + [Marker(scope, at, since, false)])
    case TakeNothing(id) =>
      SentOut(w, id, None)
    case Settle(id, delivered) =>
      var marker := w.deliveries[id].phase.marker;
      if delivered || marker.None? then
        Moved(w, id, Done(marker, true, delivered, false, AfterDispatch(delivered)))
      else
        Moved(w, id, Releasing(marker.value))
    case Release(id, lands) =>
      var m := w.deliveries[id].phase.held;
      var markers := if lands then w.markers[m := w.markers[m].(released := true)] else w.markers;
      Moved(w, id, Done(Some(m), true, false, !lands, AfterDispatch(false))).(markers := markers)
  }

  function Run(w: World, events: seq<Event>, cooldownMs: int): Option<World>
    decreases |events|
  {
    if events == [] then Some(w)
    else if !Possible(w, events[0]) then None
    else Run(Next(w, events[0], cooldownMs), events[1..], cooldownMs)
  }

  const NOTHING_SENT := World(map[], [], map[], [], [])

  // ---- keys are spaced --------------------------------------------------------------------------

  /** Same-key dispatches keep their distance, and a key's stamp is no older than its dispatches. */
  ghost predicate KeysSpaced(stamps: map<string, int>, sent: seq<Try>, cooldownMs: int) {
    && (forall i, j :: 0 <= i < j < |sent| && sent[i].key == sent[j].key ==> sent[j].now - sent[i].now >= cooldownMs)
    && (forall i :: 0 <= i < |sent| ==> sent[i].key in stamps && sent[i].now <= stamps[sent[i].key])
  }

  lemma ClaimKeySpaces(stamps: map<string, int>, sent: seq<Try>, key: string, cooldownMs: int, now: int)
    requires cooldownMs > 0 && KeysSpaced(stamps, sent, cooldownMs)
    ensures
      var (won, after) := ClaimKey(stamps, key, cooldownMs, now);
      KeysSpaced(after, if won then sent + [Try(key, now)] else sent, cooldownMs)
  {
  }

  lemma {:induction false} ClaimKeysSpaces(stamps: map<string, int>, sent: seq<Try>, batch: seq<Try>, cooldownMs: int)
    requires cooldownMs > 0 && KeysSpaced(stamps, sent, cooldownMs)
    ensures
      var (won, after) := ClaimKeys(stamps, batch, cooldownMs);
      KeysSpaced(after, sent + won, cooldownMs)
    decreases |batch|
  {
    hide KeysSpaced;
    if batch == [] {
      assert sent + [] == sent;
    } else {
      var (first, after) := ClaimKey(stamps, batch[0].key, cooldownMs, batch[0].now);
      ClaimKeySpaces(stamps, sent, batch[0].key, cooldownMs, batch[0].now);
      var more := if first then sent + [batch[0]] else sent;
      ClaimKeysSpaces(after, more, batch[1..], cooldownMs);
      var (rest, end) := ClaimKeys(after, batch[1..], cooldownMs);
      assert first ==> sent + ([batch[0]] + rest) == (sent + [batch[0]]) + rest;
    }
  }

  // ---- windows are held exactly by what was delivered -------------------------------------------

  /** Who a marker stands for: a dispatch still going out, one whose release is due, or one that ended. */
  predicate Owns(w: World, id: nat, m: nat) {
    && id in w.deliveries
    && match w.deliveries[id].phase
       case Resolved(_) => false
       case Sending(marker, _) => marker == Some(m)
       case Releasing(held) => held == m
       case Done(marker, _, _, _, _) => marker == Some(m)
  }

  ghost predicate MarkersOwned(w: World) {
    && (forall id: nat, m: nat :: Owns(w, id, m) ==> m < |w.markers|)
    && (forall id: nat, other: nat, m: nat :: Owns(w, id, m) && Owns(w, other, m) ==> id == other)
    && (forall id: nat, m: nat :: Owns(w, id, m) ==>
          (w.markers[m].released <==>
             && w.deliveries[id].phase.Done? && !w.deliveries[id].phase.delivered && !w.deliveries[id].phase.releaseLost))
    && (forall m: nat :: m < |w.markers| ==> Owned(w, m))
  }

  ghost predicate Owned(w: World, m: nat) {
    exists id: nat :: Owns(w, id, m)
  }

  /** Of two markers for one scope that both still stand, the later one's window began after the earlier was written. */
  ghost predicate WindowsApart(markers: seq<Marker>) {
    forall i, j :: 0 <= i < j < |markers| && markers[i].scope == markers[j].scope && !markers[i].released && !markers[j].released ==>
      markers[i].at < markers[j].since
  }

  // ---- nothing goes out unread, and the reason is the cause --------------------------------------

  /** How far a delivery got, and why no further, follows from what it read and what became of its claim. */
  predicate Explained(d: Delivery) {
    var target := TargetOf(d.eligible, d.sink, d.deployment);
    match d.phase
    case Resolved(to) => target == Some(to)
    case Sending(_, to) => target == Some(to)
    case Releasing(_) => target.Some?
    case Done(marker, claimed, delivered, _, outcome) =>
      && (claimed ==> target.Some?) && (delivered || marker.Some? ==> claimed)
      && (outcome == Some(SinkUnreadable) <==> d.eligible && d.sink.ReadFailed?)
      && (outcome == Some(NoSink) <==> d.eligible && d.sink.ReadOk? && target.None?)
      && (outcome == Some(DispatchFailed) <==> claimed && !delivered)
      && (outcome == Some(Cooldown) ==> target.Some? && !claimed)
      && (outcome == None ==> delivered || !d.eligible || (target.Some? && !claimed))
      && (delivered || !d.eligible ==> outcome == None)
  }

  ghost predicate AllExplained(w: World) {
    forall id :: id in w.deliveries ==> Explained(w.deliveries[id])
  }

  predicate WentToItsTarget(w: World, d: Dispatch) {
    && d.id in w.deliveries && !w.deliveries[d.id].phase.Resolved?
    && TargetOf(w.deliveries[d.id].eligible, w.deliveries[d.id].sink, w.deliveries[d.id].deployment) == Some(d.target)
    && (w.deliveries[d.id].phase.Done? ==> w.deliveries[d.id].phase.claimed)
  }

  ghost predicate DispatchesOk(w: World) {
    forall k :: 0 <= k < |w.dispatches| ==> WentToItsTarget(w, w.dispatches[k])
  }

  ghost predicate Inv(w: World, cooldownMs: int) {
    && (cooldownMs > 0 ==> KeysSpaced(w.stamps, w.sent, cooldownMs))
    && MarkersOwned(w)
    && WindowsApart(w.markers)
    && AllExplained(w)
    && DispatchesOk(w)
  }

  lemma MoverExplained(w: World, e: Event, cooldownMs: int)
    requires Possible(w, e) && (e.id in w.deliveries ==> Explained(w.deliveries[e.id]))
    ensures e.id in Next(w, e, cooldownMs).deliveries && Explained(Next(w, e, cooldownMs).deliveries[e.id])
  {
    hide WindowTaken, ClaimKeys, Target;
    TargetNeedsARead(Next(w, e, cooldownMs).deliveries[e.id]);
  }

  lemma ExplainedKept(w: World, e: Event, cooldownMs: int)
    requires Possible(w, e) && AllExplained(w)
    ensures AllExplained(Next(w, e, cooldownMs))
  {
    hide WindowTaken, ClaimKeys, Explained, Unsent;
    var v := Next(w, e, cooldownMs);
    MoverExplained(w, e, cooldownMs);
    assert forall id :: id in v.deliveries && id != e.id ==> id in w.deliveries && v.deliveries[id] == w.deliveries[id];
  }

  lemma DispatchesKept(w: World, e: Event, cooldownMs: int)
    requires Possible(w, e) && AllExplained(w) && DispatchesOk(w)
    ensures DispatchesOk(Next(w, e, cooldownMs))
  {
    hide WindowTaken, ClaimKeys, Unsent, TargetOf;
    var v := Next(w, e, cooldownMs);
    assert e.id in w.deliveries ==> Explained(w.deliveries[e.id]);
    forall k | 0 <= k < |v.dispatches|
      ensures WentToItsTarget(v, v.dispatches[k])
    {
      if k < |w.dispatches| {
        assert v.dispatches[k] == w.dispatches[k] && WentToItsTarget(w, w.dispatches[k]);
      }
    }
  }

  lemma TargetNeedsARead(d: Delivery)
    ensures TargetOf(d.eligible, d.sink, d.deployment).Some? ==> d.eligible && d.sink.ReadOk?
  {
  }

  /** What a step does to ownership: its own delivery may take up the marker it adds, or keep the one it had. */
  lemma OwnershipMoves(w: World, e: Event, cooldownMs: int)
    requires Possible(w, e) && MarkersOwned(w)
    ensures
      var v := Next(w, e, cooldownMs);
      && (forall id: nat, m: nat :: Owns(v, id, m) ==> Owns(w, id, m) || (id == e.id && m == |w.markers| < |v.markers|))
      && (forall id: nat, m: nat :: Owns(w, id, m) ==> Owns(v, id, m))
      && |w.markers| <= |v.markers| <= |w.markers| + 1
      && (|v.markers| > |w.markers| ==> Owns(v, e.id, |w.markers|))
  {
    hide WindowTaken, ClaimKeys, Unsent, TargetOf;
  }

  /** A marker is released exactly when the delivery that owns it ended that way. */
  lemma ReleasesMatch(w: World, e: Event, cooldownMs: int, id: nat, m: nat)
    requires Possible(w, e) && MarkersOwned(w) && Owns(Next(w, e, cooldownMs), id, m)
    requires Owns(w, id, m) || (id == e.id && m == |w.markers| < |Next(w, e, cooldownMs).markers|)
    ensures
      var v := Next(w, e, cooldownMs);
      && m < |v.markers|
      && (v.markers[m].released <==>
            && v.deliveries[id].phase.Done? && !v.deliveries[id].phase.delivered && !v.deliveries[id].phase.releaseLost)
  {
    hide WindowTaken, ClaimKeys, Unsent, TargetOf;
    if e.Release? && id != e.id {
      assert Owns(w, e.id, w.deliveries[e.id].phase.held);
    }
  }

  lemma OwnersKept(w: World, e: Event, cooldownMs: int)
    requires Possible(w, e) && MarkersOwned(w)
    ensures MarkersOwned(Next(w, e, cooldownMs))
  {
    OwnershipMoves(w, e, cooldownMs);
    hide Owns, Next, Possible;
    var v := Next(w, e, cooldownMs);
    forall id: nat, m: nat | Owns(v, id, m)
      ensures m < |v.markers|
      ensures v.markers[m].released <==>
        && v.deliveries[id].phase.Done? && !v.deliveries[id].phase.delivered && !v.deliveries[id].phase.releaseLost
    {
      ReleasesMatch(w, e, cooldownMs, id, m);
    }
    forall m: nat | m < |v.markers|
      ensures Owned(v, m)
    {
      if m < |w.markers| {
        assert Owned(w, m);
        var id: nat :| Owns(w, id, m);
        assert Owns(v, id, m);
      } else {
        assert Owns(v, e.id, m);
      }
    }
  }

  lemma NextKeeps(w: World, e: Event, cooldownMs: int)
    requires Inv(w, cooldownMs) && Possible(w, e)
    ensures Inv(Next(w, e, cooldownMs), cooldownMs)
  {
    hide KeysSpaced, MarkersOwned, AllExplained, DispatchesOk, WindowsApart, Next, Possible;
    OwnersKept(w, e, cooldownMs);
    ExplainedKept(w, e, cooldownMs);
    DispatchesKept(w, e, cooldownMs);
    WindowsKept(w, e, cooldownMs);
    KeysKept(w, e, cooldownMs);
  }

  lemma KeysKept(w: World, e: Event, cooldownMs: int)
    requires Possible(w, e) && (cooldownMs > 0 ==> KeysSpaced(w.stamps, w.sent, cooldownMs))
    ensures cooldownMs > 0 ==> KeysSpaced(Next(w, e, cooldownMs).stamps, Next(w, e, cooldownMs).sent, cooldownMs)
  {
    hide KeysSpaced, WindowTaken, TargetOf;
    if e.TakeKeys? && cooldownMs > 0 {
      ClaimKeysSpaces(w.stamps, w.sent, e.batch, cooldownMs);
      assert w.sent + [] == w.sent;
    }
  }

  lemma WindowsKept(w: World, e: Event, cooldownMs: int)
    requires Possible(w, e) && WindowsApart(w.markers)
    ensures WindowsApart(Next(w, e, cooldownMs).markers)
  {
    hide ClaimKeys, TargetOf, Unsent;
  }

  lemma {:induction false} RunKeeps(w: World, events: seq<Event>, cooldownMs: int)
    requires Inv(w, cooldownMs)
    ensures Run(w, events, cooldownMs).Some? ==> Inv(Run(w, events, cooldownMs).value, cooldownMs)
    decreases |events|
  {
    hide Inv, Next;
    if events != [] && Possible(w, events[0]) {
      NextKeeps(w, events[0], cooldownMs);
      RunKeeps(Next(w, events[0], cooldownMs), events[1..], cooldownMs);
    }
  }

  /** Over every run, two dispatches under one key are at least the cooldown apart, the later one later. */
  lemma DispatchesKeepTheirDistance(events: seq<Event>, cooldownMs: int, w: World, i: nat, j: nat)
    requires cooldownMs > 0 && Run(NOTHING_SENT, events, cooldownMs) == Some(w)
    requires i < j < |w.sent| && w.sent[i].key == w.sent[j].key
    ensures w.sent[j].now >= w.sent[i].now + cooldownMs
  {
    RunKeeps(NOTHING_SENT, events, cooldownMs);
  }

  /** Over every run: a finished delivery's window stands if and only if the alert was delivered, or its release was lost. */
  lemma ClaimStandsIffDelivered(events: seq<Event>, cooldownMs: int, w: World, id: nat, m: nat)
    requires Run(NOTHING_SENT, events, cooldownMs) == Some(w)
    requires id in w.deliveries && w.deliveries[id].phase.Done? && w.deliveries[id].phase.marker == Some(m)
    ensures m < |w.markers|
    ensures !w.markers[m].released <==> w.deliveries[id].phase.delivered || w.deliveries[id].phase.releaseLost
  {
    RunKeeps(NOTHING_SENT, events, cooldownMs);
    assert Owns(w, id, m);
  }

  predicate DeliveredUnder(w: World, id: nat, m: nat) {
    id in w.deliveries && w.deliveries[id].phase.Done? && w.deliveries[id].phase.delivered && w.deliveries[id].phase.marker == Some(m)
  }

  /** Over every run, two delivered alerts of one action and org never fell in one claim window. */
  lemma OneDeliveryPerWindow(events: seq<Event>, cooldownMs: int, w: World, a: nat, b: nat, i: nat, j: nat)
    requires Run(NOTHING_SENT, events, cooldownMs) == Some(w)
    requires DeliveredUnder(w, a, i) && DeliveredUnder(w, b, j)
    requires i < j < |w.markers| && w.markers[i].scope == w.markers[j].scope
    ensures w.markers[i].at < w.markers[j].since
  {
    RunKeeps(NOTHING_SENT, events, cooldownMs);
    assert Owns(w, a, i) && Owns(w, b, j);
  }

  /**
   * Over every run: whatever went out went where its own read said, so an unreadable sink sends nothing,
   * to the deployment's sink or any other; and such an alert holds no window and says why.
   */
  lemma UnreadableSendsNothing(events: seq<Event>, cooldownMs: int, w: World, id: nat)
    requires Run(NOTHING_SENT, events, cooldownMs) == Some(w) && id in w.deliveries
    ensures forall d :: d in w.dispatches && d.id == id ==>
      w.deliveries[id].eligible && w.deliveries[id].sink.ReadOk?
      && Target(w.deliveries[id].sink, w.deliveries[id].deployment) == Some(d.target)
    ensures w.deliveries[id].sink.ReadFailed? || !w.deliveries[id].eligible ==>
      && (forall d :: d in w.dispatches ==> d.id != id)
      && (forall m: nat :: !Owns(w, id, m))
      && w.deliveries[id].phase.Done? && !w.deliveries[id].phase.delivered
      && w.deliveries[id].phase.outcome == (if w.deliveries[id].eligible then Some(SinkUnreadable) else None)
  {
    RunKeeps(NOTHING_SENT, events, cooldownMs);
    assert Explained(w.deliveries[id]);
    TargetNeedsARead(w.deliveries[id]);
    forall d | d in w.dispatches && d.id == id
      ensures TargetOf(w.deliveries[id].eligible, w.deliveries[id].sink, w.deliveries[id].deployment) == Some(d.target)
    {
      var k :| 0 <= k < |w.dispatches| && w.dispatches[k] == d;
      assert WentToItsTarget(w, d);
    }
  }

  /** Over every run: each reason is recorded exactly when its own cause is what happened. */
  lemma ReasonNamesTheCause(events: seq<Event>, cooldownMs: int, w: World, id: nat)
    requires Run(NOTHING_SENT, events, cooldownMs) == Some(w)
    requires id in w.deliveries && w.deliveries[id].phase.Done?
    ensures
      var d := w.deliveries[id];
      var o := d.phase.outcome;
      && (o == Some(SinkUnreadable) <==> d.eligible && d.sink.ReadFailed?)
      && (o == Some(NoSink) <==> d.eligible && d.sink.ReadOk? && Target(d.sink, d.deployment).None?)
      && (o == Some(DispatchFailed) <==> d.phase.claimed && !d.phase.delivered)
      && (o == Some(Cooldown) ==> d.eligible && Target(d.sink, d.deployment).Some? && !d.phase.claimed)
      && (d.phase.delivered ==> o == None)
  {
    RunKeeps(NOTHING_SENT, events, cooldownMs);
    assert Explained(w.deliveries[id]);
  }

  // ---------------------------------------------------------------------------------------------
  // One delivery, start to finish
  // ---------------------------------------------------------------------------------------------

  datatype Claim = Unclaimed | Keys(batch: seq<Try>) | Window(scope: string, since: int, at: int)

  /** What the outside world does to one delivery. */
  datatype Fate = Fate(claimThrows: bool, dispatchSucceeds: bool, releaseLands: bool)

  datatype Result = Result(delivered: bool, claimed: bool, outcome: Option<Reason>, dispatchedTo: Option<string>, recordDue: bool)

  // ---- every alert that wins a slot goes out ------------------------------------------------------

  /** A key may alert: nothing is throttled, it never alerted, or its cooldown is over. */
  predicate IsFree(stamps: map<string, int>, t: Try, cooldownMs: int) {
    cooldownMs <= 0 || t.key !in stamps || t.now - stamps[t.key] >= cooldownMs
  }

  predicate AnyFree(stamps: map<string, int>, batch: seq<Try>, cooldownMs: int) {
    exists i :: 0 <= i < |batch| && IsFree(stamps, batch[i], cooldownMs)
  }

  /** A batch wins something exactly when one of its keys was free before it. */
  lemma {:induction false} BatchWinsIff(stamps: map<string, int>, batch: seq<Try>, cooldownMs: int)
    ensures ClaimKeys(stamps, batch, cooldownMs).0 != [] <==> AnyFree(stamps, batch, cooldownMs)
    decreases |batch|
  {
    if batch != [] {
      BatchWinsIff(stamps, batch[1..], cooldownMs);
      assert forall i :: 1 <= i < |batch| ==> batch[i] == batch[1..][i - 1];
      if IsFree(stamps, batch[0], cooldownMs) {
        assert AnyFree(stamps, batch, cooldownMs);
      }
    }
  }

  /** A key tried once is won exactly when it was free; winning stamps it, and keys not tried keep their stamps. */
  lemma {:induction false} LoneKeyWinsIff(stamps: map<string, int>, batch: seq<Try>, cooldownMs: int, i: nat)
    requires i < |batch| && forall j :: 0 <= j < |batch| && j != i ==> batch[j].key != batch[i].key
    ensures
      var (won, after) := ClaimKeys(stamps, batch, cooldownMs);
      && (batch[i] in won <==> IsFree(stamps, batch[i], cooldownMs))
      && (batch[i] in won && cooldownMs > 0 ==> batch[i].key in after && after[batch[i].key] == batch[i].now)
    decreases |batch|
  {
    var (first, after) := ClaimKey(stamps, batch[0].key, cooldownMs, batch[0].now);
    assert forall j :: 1 <= j < |batch| ==> batch[j] == batch[1..][j - 1];
    if i > 0 {
      LoneKeyWinsIff(after, batch[1..], cooldownMs, i - 1);
    } else {
      KeyNotTried(after, batch[1..], cooldownMs, batch[0].key);
    }
  }

  lemma {:induction false} KeyNotTried(stamps: map<string, int>, batch: seq<Try>, cooldownMs: int, key: string)
    requires forall j :: 0 <= j < |batch| ==> batch[j].key != key
    ensures
      var (won, after) := ClaimKeys(stamps, batch, cooldownMs);
      && (forall t :: t in won ==> t.key != key)
      && (key in after <==> key in stamps) && (key in stamps ==> after[key] == stamps[key])
    decreases |batch|
  {
    if batch != [] {
      var (first, after) := ClaimKey(stamps, batch[0].key, cooldownMs, batch[0].now);
      KeyNotTried(after, batch[1..], cooldownMs, key);
    }
  }

  /** An alert may go to its org's own sink, or to the deployment's when the org is known to have none. */
  lemma TargetIs(eligible: bool, sink: SinkRead, deployment: Option<string>, to: string)
    ensures TargetOf(eligible, sink, deployment) == Some(to) <==>
      eligible && (sink == ReadOk(Some(to)) || (sink == ReadOk(None) && deployment == Some(to)))
  {
  }

  /** The slot is there to be won: nothing is claimed, a key is free, or no standing marker of the scope is in the window. */
  predicate WinsSlot(stamps: map<string, int>, markers: seq<Marker>, claim: Claim, throws: bool, cooldownMs: int) {
    match claim
    case Unclaimed => true
    case Keys(batch) => AnyFree(stamps, batch, cooldownMs)
    case Window(scope, since, _) =>
      && !throws
      && forall i :: 0 <= i < |markers| ==> markers[i].scope != scope || markers[i].at < since || markers[i].released
  }

  /**
   * In every state: an alert that is eligible and whose sink was read resolves to where it may go, and any
   * other is over; and of the resolved ones exactly those that win their slot go out, to that place, the
   * rest ending with the cooldown as the reason, or none when the claim itself failed. Nobody else's
   * delivery, marker or dispatch changes.
   */
  lemma ResolvedAndWonIsSent(w: World, id: nat, eligible: bool, sink: SinkRead, deployment: Option<string>, claim: Claim,
                             throws: bool, cooldownMs: int)
    requires id !in w.deliveries
    ensures
      Possible(w, Read(id, eligible, sink, deployment)) &&
      var target := TargetOf(eligible, sink, deployment);
      var read := Next(w, Read(id, eligible, sink, deployment), cooldownMs);
      && read.(deliveries := w.deliveries) == w && read.deliveries - {id} == w.deliveries && id in read.deliveries
      && (target.None? ==> read.deliveries[id].phase.Done? && !read.deliveries[id].phase.delivered)
      && (target.Some? ==>
            && read.deliveries[id].phase == Resolved(target.value)
            && Possible(read, ClaimEvent(id, claim, throws))
            && var sent := Next(read, ClaimEvent(id, claim, throws), cooldownMs);
               && sent.deliveries - {id} == w.deliveries && id in sent.deliveries
               && var phase := sent.deliveries[id].phase;
               if WinsSlot(w.stamps, w.markers, claim, throws, cooldownMs) then
                 && sent.dispatches == w.dispatches + [Dispatch(id, target.value)]
                 && phase == Sending(if claim.Window? then Some(|w.markers|) else None, target.value)
                 && sent.markers
                    == (if claim.Window? then w.markers + [Marker(claim.scope, claim.at, claim.since, false)] else w.markers)
               else
                 && sent.dispatches == w.dispatches && sent.markers == w.markers
                 && phase.Done? && !phase.claimed && !phase.delivered
                 && phase.outcome == (if claim.Window? && throws then None else Some(Cooldown)))
  {
    hide ClaimKeys;
    if claim.Keys? {
      BatchWinsIff(w.stamps, claim.batch, cooldownMs);
    }
    var read := Next(w, Read(id, eligible, sink, deployment), cooldownMs);
    assert read.deliveries - {id} == w.deliveries;
    if TargetOf(eligible, sink, deployment).Some? {
      assert Next(read, ClaimEvent(id, claim, throws), cooldownMs).deliveries - {id} == w.deliveries;
    }
  }

  /**
   * In every state a dispatch that is out ends: delivered, it keeps whatever window it holds; failed, it is
   * over at once if it holds none, and otherwise releases its own marker and no other, if the release lands.
   */
  lemma DispatchEnds(w: World, id: nat, delivered: bool, lands: bool, cooldownMs: int)
    requires Possible(w, Settle(id, delivered))
    requires var marker := w.deliveries[id].phase.marker; marker.Some? ==> marker.value < |w.markers|
    ensures
      var marker := w.deliveries[id].phase.marker;
      var t := Next(w, Settle(id, delivered), cooldownMs);
      && t.markers == w.markers && t.dispatches == w.dispatches && t.deliveries - {id} == w.deliveries - {id} && id in t.deliveries
      && (delivered || marker.None? ==>
            t.deliveries[id].phase == Done(marker, true, delivered, false, if delivered then None else Some(DispatchFailed)))
      && (!delivered && marker.Some? ==>
            Possible(t, Release(id, lands)) &&
            var u := Next(t, Release(id, lands), cooldownMs);
            && id in u.deliveries && u.deliveries[id].phase == Done(marker, true, false, !lands, Some(DispatchFailed))
            && |u.markers| == |w.markers|
            && (forall m :: 0 <= m < |w.markers| ==>
                  u.markers[m] == if m == marker.value && lands then w.markers[m].(released := true) else w.markers[m]))
  {
  }

  lemma RunNothing(w: World, cooldownMs: int)
    ensures Run(w, [], cooldownMs) == Some(w)
  {
  }

  lemma {:induction false} RunOneMore(w: World, events: seq<Event>, v: World, e: Event, cooldownMs: int)
    requires Run(w, events, cooldownMs) == Some(v) && Possible(v, e)
    ensures Run(w, events + [e], cooldownMs) == Some(Next(v, e, cooldownMs))
    decreases |events|
  {
    hide Next, Possible;
    if events == [] {
      assert ([] + [e])[1..] == [];
    } else {
      assert (events + [e])[1..] == events[1..] + [e];
      RunOneMore(Next(w, events[0], cooldownMs), events[1..], v, e, cooldownMs);
    }
  }

  class Door {
    var stamps: map<string, int>
    var markers: seq<Marker>
    const cooldownMs: int
    ghost var deliveries: map<nat, Delivery>
    ghost var sent: seq<Try>
    ghost var dispatches: seq<Dispatch>

    ghost function View(): World
      reads this
    {
      World(stamps, markers, deliveries, sent, dispatches)
    }

    constructor (cooldownMs: int)
      ensures View() == NOTHING_SENT && this.cooldownMs == cooldownMs
    {
      stamps, markers, deliveries, sent, dispatches := map[], [], map[], [], [];
      this.cooldownMs := cooldownMs;
    }

    method ClaimRegressionAlert(key: string, now: int) returns (won: bool)
      modifies this`stamps
      ensures won <==> cooldownMs <= 0 || key !in old(stamps) || now - old(stamps)[key] >= cooldownMs
      ensures stamps == if won && cooldownMs > 0 then old(stamps)[key := now] else old(stamps)
      ensures (won, stamps) == ClaimKey(old(stamps), key, cooldownMs, now)
    {
      if cooldownMs <= 0 {
        return true;
      }
      if key in stamps && now - stamps[key] < cooldownMs {
        return false;
      }
      stamps := stamps[key := now];
      return true;
    }

    method ClaimBatch(batch: seq<Try>) returns (won: seq<Try>)
      modifies this`stamps
      ensures (won, stamps) == ClaimKeys(old(stamps), batch, cooldownMs)
    {
      won := [];
      assert batch[0..] == batch && [] + ClaimKeys(stamps, batch, cooldownMs).0 == ClaimKeys(stamps, batch, cooldownMs).0;
      var i := 0;
      while i < |batch|
        invariant 0 <= i <= |batch|
        invariant
          var (rest, end) := ClaimKeys(stamps, batch[i..], cooldownMs);
          ClaimKeys(old(stamps), batch, cooldownMs) == (won + rest, end)
      {
        assert batch[i..][1..] == batch[i + 1..];
        var (rest, end) := ClaimKeys(stamps, batch[i..], cooldownMs);
        var ok := ClaimRegressionAlert(batch[i].key, batch[i].now);
        assert ok ==> won + rest == (won + [batch[i]]) + rest[1..];
        if ok {
          won := won + [batch[i]];
        }
        i := i + 1;
      }
      assert batch[i..] == [] && won + [] == won;
    }

    /** Wins only when no standing marker of the scope was written in the window, and then leaves one. */
    method ClaimOrgAuditOnce(scope: string, since: int, at: int) returns (id: Option<nat>)
      modifies this`markers
      ensures id.Some? <==> !WindowTaken(old(markers), scope, since)
      ensures id.None? ==> markers == old(markers)
      ensures id.Some? ==> id.value == |old(markers)| && markers == old(markers) + [Marker(scope, at, since, false)]
    {
      var i := 0;
      while i < |markers|
        invariant 0 <= i <= |markers|
        invariant forall k :: 0 <= k < i ==> !(markers[k].scope == scope && markers[k].at >= since && !markers[k].released)
      {
        if markers[i].scope == scope && markers[i].at >= since && !markers[i].released {
          return None;
        }
        i := i + 1;
      }
      id := Some(|markers|);
      markers := markers + [Marker(scope, at, since, false)];
    }

    /** The segment up to the claim: read the sink, and resolve it or be done. */
    method ReadSink(ghost id: nat, eligible: bool, sink: SinkRead, deployment: Option<string>) returns (target: Option<string>)
      requires id !in deliveries
      modifies this`deliveries
      ensures View() == Next(old(View()), Read(id, eligible, sink, deployment), cooldownMs)
      ensures target == TargetOf(eligible, sink, deployment)
    {
      target := if eligible then Target(sink, deployment) else None;
      ghost var phase := if target.Some? then Resolved(target.value) else Unsent(eligible, sink, false);
      deliveries := deliveries[id := Delivery(eligible, sink, deployment, phase)];
    }

    /** The segment that takes the slot and, if it is won, builds the message and sends it. */
    method TakeSlot(ghost id: nat, claim: Claim, throws: bool) returns (claimed: bool, marker: Option<nat>)
      requires id in deliveries && deliveries[id].phase.Resolved?
      modifies this
      ensures View() == Next(old(View()), ClaimEvent(id, claim, throws), cooldownMs)
      ensures claimed <==> id in deliveries && deliveries[id].phase.Sending?
      ensures claimed ==> deliveries[id].phase == Sending(marker, old(deliveries[id].phase.target))
      ensures !claimed ==> deliveries[id].phase.Done? && !deliveries[id].phase.claimed && !deliveries[id].phase.delivered
      ensures claimed <==> WinsSlot(old(stamps), old(markers), claim, throws, cooldownMs)
    {
      claimed, marker := false, None;
      ghost var to := deliveries[id].phase.target;
      match claim {
        case Window(scope, since, at) =>
          if throws {
            deliveries := deliveries[id := deliveries[id].(phase := Done(None, false, false, false, None))];
            return;
          }
          marker := ClaimOrgAuditOnce(scope, since, at);
          claimed := marker.Some?;
        case Keys(batch) =>
          BatchWinsIff(stamps, batch, cooldownMs);
          var keys := ClaimBatch(batch);
          claimed := keys != [];
          sent := sent + keys;
        case Unclaimed =>
          claimed := true;
      }
      if claimed {
        deliveries, dispatches := deliveries[id := deliveries[id].(phase := Sending(marker, to))], dispatches + [Dispatch(id, to)];
      } else {
        deliveries := deliveries[id := deliveries[id].(phase := Unsent(true, deliveries[id].sink, true))];
      }
    }

    /** The segment after the dispatch; a failed one that holds a window still has it to release. */
    method SettleDispatch(ghost id: nat, marker: Option<nat>, delivered: bool) returns (release: bool)
      requires id in deliveries && deliveries[id].phase.Sending? && deliveries[id].phase.marker == marker
      modifies this`deliveries
      ensures View() == Next(old(View()), Settle(id, delivered), cooldownMs)
      ensures release <==> id in deliveries && deliveries[id].phase.Releasing?
      ensures release <==> !delivered && marker.Some?
      ensures release ==> deliveries[id].phase.held == marker.value
    {
      release := !delivered && marker.Some?;
      if release {
        deliveries := deliveries[id := deliveries[id].(phase := Releasing(marker.value))];
      } else {
        deliveries := deliveries[id := deliveries[id].(
          phase := Done(marker, true, delivered, false, if delivered then None else Some(DispatchFailed)))];
      }
    }

    /** A release cancels the marker, or is lost and leaves it standing. */
    method ReleaseAuditClaim(ghost id: nat, marker: nat, lands: bool)
      requires marker < |markers|
      requires id in deliveries && deliveries[id].phase.Releasing? && deliveries[id].phase.held == marker
      modifies this`markers, this`deliveries
      ensures View() == Next(old(View()), Event.Release(id, lands), cooldownMs)
    {
      if lands {
        markers := markers[marker := markers[marker].(released := true)];
      }
      deliveries := deliveries[id := deliveries[id].(phase := Done(Some(marker), true, false, !lands, Some(DispatchFailed)))];
    }

    /** From the dispatch's end on: settle it, and release the window of one that failed. */
    method FinishDispatch(ghost id: nat, marker: Option<nat>, fate: Fate, ghost w: World, ghost events: seq<Event>)
      returns (ghost more: seq<Event>)
      requires id in deliveries && deliveries[id].phase.Sending? && deliveries[id].phase.marker == marker
      requires marker.Some? ==> marker.value < |markers|
      requires Run(w, events, cooldownMs) == Some(View())
      modifies this`markers, this`deliveries
      ensures Run(w, more, cooldownMs) == Some(View())
      ensures id in deliveries && deliveries[id].phase.Done? && deliveries[id].phase.claimed
      ensures deliveries[id].phase.delivered == fate.dispatchSucceeds
      ensures deliveries[id].phase.outcome == if fate.dispatchSucceeds then None else Some(DispatchFailed)
      ensures markers ==
        if marker.Some? && !fate.dispatchSucceeds && fate.releaseLands
        then old(markers)[marker.value := old(markers)[marker.value].(released := true)] else old(markers)
    {
      hide Run;
      RunOneMore(w, events, View(), Settle(id, fate.dispatchSucceeds), cooldownMs);
      more := events + [Settle(id, fate.dispatchSucceeds)];
      var release := SettleDispatch(id, marker, fate.dispatchSucceeds);
      if release {
        RunOneMore(w, more, View(), Event.Release(id, fate.releaseLands), cooldownMs);
        more := more + [Event.Release(id, fate.releaseLands)];
        ReleaseAuditClaim(id, marker.value, fate.releaseLands);
      }
    }

    /**
     * The whole delivery, undisturbed, is a run of those segments. Nothing goes out and no slot is used
     * unless the alert was eligible and a sink resolved; a read that failed never reaches the
     * deployment's sink; a window is kept only by a delivery; and the reason is the one the run records.
     */
    method DeliverAlert(ghost id: nat, eligible: bool, sink: SinkRead, deployment: Option<string>, claim: Claim, fate: Fate)
      returns (d: Result, ghost events: seq<Event>)
      requires id !in deliveries
      modifies this
      ensures Run(old(View()), events, cooldownMs) == Some(View())
      ensures id in deliveries && deliveries[id].phase.Done?
      ensures d.outcome == deliveries[id].phase.outcome
      ensures d.claimed == deliveries[id].phase.claimed && d.delivered == deliveries[id].phase.delivered
      ensures d.claimed <==> d.dispatchedTo.Some?
      ensures d.dispatchedTo ==
        if WinsSlot(old(stamps), old(markers), claim, fate.claimThrows, cooldownMs) then TargetOf(eligible, sink, deployment) else None
      ensures d.delivered <==> d.dispatchedTo.Some? && fate.dispatchSucceeds
      ensures TargetOf(eligible, sink, deployment).None? ==> stamps == old(stamps) && markers == old(markers) && d.recordDue
      ensures claim.Window? && d.claimed ==>
        && !WindowTaken(old(markers), claim.scope, claim.since)
        && markers == old(markers) + [Marker(claim.scope, claim.at, claim.since, !d.delivered && fate.releaseLands)]
      ensures !d.recordDue <==> claim.Window? && TargetOf(eligible, sink, deployment).Some? && !d.claimed
    {
      hide Run, ClaimKeys;
      ghost var w := View();
      RunNothing(w, cooldownMs);
      var target := ReadSink(id, eligible, sink, deployment);
      events := [Read(id, eligible, sink, deployment)];
      RunOneMore(w, [], w, Read(id, eligible, sink, deployment), cooldownMs);
      assert [] + [Read(id, eligible, sink, deployment)] == events;
      if target.None? {
        var outcome := AlertOutcome(Outcome(Some(eligible), eligible && sink.ReadFailed?, Some(false), Some(false), false));
        return Result(false, false, outcome, None, true), events;
      }
      RunOneMore(w, events, View(), ClaimEvent(id, claim, fate.claimThrows), cooldownMs);
      events := events + [ClaimEvent(id, claim, fate.claimThrows)];
      var claimed, marker := TakeSlot(id, claim, fate.claimThrows);
      if !claimed {
        var outcome := if claim.Window? && fate.claimThrows then None else Some(Cooldown);
        return Result(false, false, outcome, None, !claim.Window?), events;
      }
      events := FinishDispatch(id, marker, fate, w, events);
      d := Result(fate.dispatchSucceeds, true, if fate.dispatchSucceeds then None else Some(DispatchFailed), target, true);
    }
  }

  function ClaimEvent(id: nat, claim: Claim, throws: bool): Event {
    match claim
    case Unclaimed => TakeNothing(id)
    case Keys(batch) => TakeKeys(id, batch)
    case Window(scope, since, at) => TakeWindow(id, scope, since, at, throws)
  }
}
