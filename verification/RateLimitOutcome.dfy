/**
 What a charge is answered, and from what: the verdict on a window follows from the slots that in-flight
 and served charges hold in it, so whatever the limiter has trimmed or swept, every outcome and every wait
 can be read off the charges alone.
 */
module RateLimitOutcome {
  import opened Common
  import opened SlidingWindow
  import opened RateLimitWindow
  import opened RateLimitCharge
  import StableSort

  // ---- outcomes are a function of the charges alone ----------------------------------------------

  /** The slots that in-flight and served charges hold in the window of `key`, oldest first. */
  function Window(charges: seq<Charge>, key: Key): seq<int> {
    StableSort.SortBy(HeldIn(charges, key), StableSort.Itself)
  }

  function LiveIn(conf: Key -> Config, charges: seq<Charge>, key: Key, now: int): seq<int> {
    Live(Window(charges, key), now - conf(key).windowMs)
  }

  function VerdictOn(conf: Key -> Config, charges: seq<Charge>, key: Key, now: int): Verdict {
    Judge(LiveIn(conf, charges, key, now), conf(key).limit, conf(key).windowMs, now)
  }

  function Settled(conf: Key -> Config, charges: seq<Charge>, id: nat, t3: int, t4: int): (r: seq<Charge>)
    requires id < |charges|
    ensures |r| == |charges|
  {
    var c := charges[id];
    var v := VerdictOn(conf, charges, LocalGlobalKey(c.cfg), t3);
    charges[id := if v.Ok? then c.(globalHit := Some(t4), outcome := Some(Admit))
                  else c.(outcome := Some(GlobalRefusal(c.cfg, v.retryAfterSec)))]
  }

  function ChargesAfter(conf: Key -> Config, charges: seq<Charge>, e: Event): seq<Charge>
    requires e.Resume? ==> e.id < |charges|
  {
    match e
    case Begin(key, cfg, shared, t1, t2, t3, t4) =>
      var v := VerdictOn(conf, charges, key, t1);
      if v.Wait? then charges + [Charge(key, cfg, t2, None, Some(PerIpRefusal(cfg, v.retryAfterSec)))]
      else
        var held := charges + [Charge(key, cfg, t2, None, None)];
        if shared then held else Settled(conf, held, |charges|, t3, t4)
    case Resume(id, reply, failOpen, t3, t4) =>
      var c := charges[id];
      match reply
      case Admitted => charges[id := c.(globalHit := None, outcome := Some(Admit))]
      case Refused(retry) => charges[id := c.(outcome := Some(GlobalRefusal(c.cfg, retry)))]
      case Unreachable =>
        if failOpen then Settled(conf, charges, id, t3, t4)
        else charges[id := c.(outcome := Some(UnavailableRefusal(c.cfg)))]
  }

  function ClockAfter(conf: Key -> Config, charges: seq<Charge>, e: Event): int {
    match e
    case Begin(key, _, shared, t1, t2, _, t4) => if VerdictOn(conf, charges, key, t1).Wait? || shared then t2 else t4
    case Resume(_, reply, failOpen, t3, t4) => if reply.Unreachable? && failOpen then t4 else t3
  }

  lemma WindowSorted(charges: seq<Charge>, key: Key)
    ensures Sorted(Window(charges, key)) && multiset(Window(charges, key)) == multiset(HeldIn(charges, key))
  {
    var held := HeldIn(charges, key);
    StableSort.SortSorts(held, StableSort.Itself);
    StableSort.KeepsAll(held, StableSort.Itself);
    var w := Window(charges, key);
    assert forall i, j :: 0 <= i < j < |w| ==> StableSort.Itself(w[i]) <= StableSort.Itself(w[j]);
  }

  lemma WindowIsEntries(conf: Key -> Config, y: System, key: Key)
    requires Inv(conf, y)
    ensures Entries(y.ledger, key) == Window(y.charges, key)
  {
    hide Inv, Entries, HeldIn;
    InvAt(conf, y, key, 0);
    WindowSorted(y.charges, key);
    StableSort.SortedNumbersAreOne(Entries(y.ledger, key), Window(y.charges, key));
  }

  lemma FullAtMost(conf: Key -> Config, y: System, key: Key, now: int)
    requires Inv(conf, y) && y.clock <= now
    ensures |LiveIn(conf, y.charges, key, now)| <= conf(key).limit
  {
    hide Inv, HeldIn;
    InvAt(conf, y, key, 0);
    WindowIsEntries(conf, y, key);
    LiveWithinLimit(Entries(y.ledger, key), conf(key), now);
  }

  lemma OpVerdict(conf: Key -> Config, y: System, op: Op)
    requires Inv(conf, y) && CursorOk(y.lim) && y.clock <= Start(op) <= End(op) && !op.Release?
    ensures Apply(conf, y, op).1 == VerdictOn(conf, y.charges, op.key, op.now)
    ensures Apply(conf, y, op).0.clock == End(op)
  {
    hide Apply, Live, Window;
    InvTracks(conf, y);
    hide Tracks, LedgerOk;
    ApplyKeeps(conf, y, op);
    WindowIsEntries(conf, y, op.key);
  }

  lemma SettleFollows(conf: Key -> Config, y: System, id: nat, t3: int, t4: int)
    requires Inv(conf, y) && CursorOk(y.lim) && id < |y.charges| && y.clock <= t3 <= t4
    ensures SettleLocal(conf, y, id, t3, t4).charges == Settled(conf, y.charges, id, t3, t4)
    ensures SettleLocal(conf, y, id, t3, t4).clock == t4
  {
    OpVerdict(conf, y, Hit(LocalGlobalKey(y.charges[id].cfg), t3, t4));
    hide Inv, VerdictOn, Step, LedgerStep, LocalGlobalKey;
  }

  /** A reservation that was admitted leaves the system sound before it is settled. */
  lemma HeldInv(conf: Key -> Config, y: System, e: Event)
    requires Inv(conf, y) && CursorOk(y.lim) && e.Begin? && Enabled(conf, y, e)
    requires Apply(conf, y, Reserve(e.key, e.t1, e.t2)).1.Ok?
    ensures
      var held := Apply(conf, y, Reserve(e.key, e.t1, e.t2)).0.(charges := y.charges + [Charge(e.key, e.cfg, e.t2, None, None)]);
      Inv(conf, held) && held.clock == e.t2
  {
    hide Tracks, LedgerOk, LedgerIsHeld, ChargesOk, Apply;
    ReservedKeeps(conf, y, e.key, e.cfg, e.t1, e.t2, Charge(e.key, e.cfg, e.t2, None, None));
  }

  lemma NextFollows(conf: Key -> Config, y: System, e: Event)
    requires Inv(conf, y) && CursorOk(y.lim) && Enabled(conf, y, e)
    ensures Next(conf, y, e).charges == ChargesAfter(conf, y.charges, e)
    ensures Next(conf, y, e).clock == ClockAfter(conf, y.charges, e)
  {
    hide Inv, VerdictOn, Settled, SettleLocal;
    if e.Begin? {
      var op := Reserve(e.key, e.t1, e.t2);
      OpVerdict(conf, y, op);
      hide Apply;
      var (reserved, v) := Apply(conf, y, op);
      if v.Ok? && !e.shared {
        HeldInv(conf, y, e);
        SettleFollows(conf, reserved.(charges := y.charges + [Charge(e.key, e.cfg, e.t2, None, None)]), |y.charges|, e.t3, e.t4);
      }
    } else if e.reply.Unreachable? && e.failOpen {
      SettleFollows(conf, y, e.id, e.t3, e.t4);
    } else {
      hide Step, LedgerStep;
    }
  }

  lemma NextInv(conf: Key -> Config, y: System, e: Event)
    requires Inv(conf, y) && CursorOk(y.lim) && Enabled(conf, y, e)
    ensures Inv(conf, Next(conf, y, e))
  {
    hide Inv, Next;
    if e.Begin? {
      BeginKeeps(conf, y, e);
    } else {
      ResumeKeeps(conf, y, e);
    }
  }

  // ---- what a caller is told ---------------------------------------------------------------------

  /** The fewest whole seconds, at least one, that reach `until` from `now`. */
  predicate FewestSeconds(seconds: int, now: int, until: int) {
    seconds >= 1 && now + 1000 * (seconds - 1) < until <= now + 1000 * seconds
  }

  /** The timestamps live at `now` among the slots that charges hold in the window of `key`. */
  function Holders(conf: Key -> Config, charges: seq<Charge>, key: Key, now: int): seq<int> {
    Live(HeldIn(charges, key), now - conf(key).windowMs)
  }

  predicate Oldest(stamps: seq<int>, first: int) {
    first in stamps && forall t :: t in stamps ==> first <= t
  }

  /** The fewest seconds until the oldest of `stamps` ages out; one when a budget of nothing has no holder to wait for. */
  ghost predicate HonestWait(seconds: int, stamps: seq<int>, now: int, windowMs: int) {
    && (forall first :: Oldest(stamps, first) ==> FewestSeconds(seconds, now, first + windowMs))
    && (stamps == [] ==> seconds == 1)
  }

  lemma VerdictIsHonest(conf: Key -> Config, charges: seq<Charge>, key: Key, now: int)
    ensures VerdictOn(conf, charges, key, now).Ok? <==> |Holders(conf, charges, key, now)| < conf(key).limit
    ensures VerdictOn(conf, charges, key, now).Wait? ==>
      HonestWait(VerdictOn(conf, charges, key, now).retryAfterSec, Holders(conf, charges, key, now), now, conf(key).windowMs)
  {
    hide Live, HeldIn, Window;
    var cutoff := now - conf(key).windowMs;
    var window, held := Window(charges, key), HeldIn(charges, key);
    WindowSorted(charges, key);
    LiveMultiset(window, held, cutoff);
    var live, holders := Live(window, cutoff), Live(held, cutoff);
    SameSize(live, holders);
    assert forall t :: t in live <==> t in multiset(live);
    assert forall t :: t in holders <==> t in multiset(holders);
    forall first | live != [] && Oldest(holders, first)
      ensures live[0] == first && first > cutoff
    {
      var dead := LiveIsSuffix(window, cutoff);
      assert live[0] in live;
      assert first in live;
    }
    if live != [] {
      CeilSecondsIs(live[0] + conf(key).windowMs - now);
      LiveMember(window, cutoff, live[0]);
    }
  }

  /** What a refusal says of its wait, given whose window was full and when it was judged. */
  ghost predicate Says(r: Result, scope: Scope, cfg: RateLimitConfig, stamps: seq<int>, now: int) {
    && r.Refusal? && r.scope == scope && r.limiter == cfg.name && r.evaluated
    && HonestWait(r.retryAfterSec, stamps, now, cfg.windowMs)
  }

  /** The window length in the nearest whole seconds, and never none. */
  predicate NearestSeconds(seconds: int, ms: int) {
    seconds >= 1 && (ms >= 500 ==> -500 <= 1000 * seconds - ms <= 500) && (ms < 500 ==> seconds == 1)
  }

  /**
   What a new charge is told: refused in its caller's own name exactly when that caller's holders fill the
   budget, with the fewest seconds until the oldest of them ages out, the budget and the window; otherwise,
   when nothing is awaited, admitted exactly when the ceiling's holders leave room, and refused with the
   fewest seconds until the oldest of those ages out, the budget not disclosed. Nobody else's answer moves.
   */
  lemma WhatABeginIsTold(conf: Key -> Config, y: System, e: Event)
    requires Inv(conf, y) && CursorOk(y.lim) && e.Begin? && Enabled(conf, y, e)
    ensures
      var y' := Next(conf, y, e);
      var own, all := Holders(conf, y.charges, e.key, e.t1), Holders(conf, y.charges, LocalGlobalKey(e.cfg), e.t3);
      && |y'.charges| == |y.charges| + 1 && y'.charges[..|y.charges|] == y.charges
      && var c := y'.charges[|y.charges|];
         && c.key == e.key && c.cfg == e.cfg && c.token == e.t2
         && (if |own| >= e.cfg.perIp then
               && c.outcome.Some? && Says(c.outcome.value, Ip, e.cfg, own, e.t1)
               && c.outcome.value.limit == Some(e.cfg.perIp)
               && c.outcome.value.windowSec.Some? && NearestSeconds(c.outcome.value.windowSec.value, e.cfg.windowMs)
             else if e.shared then c.outcome.None?
             else if |all| < e.cfg.global then c.outcome == Some(Admit)
             else
               && c.outcome.Some? && Says(c.outcome.value, Global, e.cfg, all, e.t3)
               && c.outcome.value.limit.None? && c.outcome.value.windowSec.None?)
  {
    PerIpWords(e.cfg, VerdictOn(conf, y.charges, e.key, e.t1));
    var held := y.charges + [Charge(e.key, e.cfg, e.t2, None, None)];
    SettledWords(conf, held, |y.charges|, e.t3, e.t4);
    OtherHolders(conf, y.charges, Charge(e.key, e.cfg, e.t2, None, None), LocalGlobalKey(e.cfg), e.t3);
    hide Inv, VerdictOn, Holders, LocalGlobalKey, HonestWait, NearestSeconds, PerIpRefusal, Next, Settled;
    NextFollows(conf, y, e);
    VerdictIsHonest(conf, y.charges, e.key, e.t1);
  }

  lemma PerIpWords(cfg: RateLimitConfig, v: Verdict)
    ensures v.Wait? ==>
      var r := PerIpRefusal(cfg, v.retryAfterSec);
      && r.Refusal? && r.scope == Ip && r.retryAfterSec == v.retryAfterSec && r.limiter == cfg.name && r.evaluated
      && r.limit == Some(cfg.perIp) && r.windowSec.Some? && NearestSeconds(r.windowSec.value, cfg.windowMs)
  {
  }

  lemma OtherHolders(conf: Key -> Config, charges: seq<Charge>, c: Charge, key: Key, now: int)
    requires c.key != key && c.globalHit.None?
    ensures Holders(conf, charges + [c], key, now) == Holders(conf, charges, key, now)
  {
    assert (charges + [c])[..|charges|] == charges;
    assert SlotsOf(c, key) == [] && HeldIn(charges, key) + [] == HeldIn(charges, key);
  }

  /**
   What an awaiting charge is told when the store has answered or failed to: the store's own verdict and
   wait; or, unreachable, the in-memory ceiling's when failing open, and otherwise an outage that says no
   budget was looked at and asks for the fewest seconds that outlast the store's breaker.
   */
  lemma WhatAResumeIsTold(conf: Key -> Config, y: System, e: Event)
    requires Inv(conf, y) && CursorOk(y.lim) && e.Resume? && Enabled(conf, y, e)
    ensures
      var y' := Next(conf, y, e);
      var cfg := y.charges[e.id].cfg;
      var all := Holders(conf, y.charges, LocalGlobalKey(cfg), e.t3);
      && |y'.charges| == |y.charges|
      && (forall i :: 0 <= i < |y.charges| && i != e.id ==> y'.charges[i] == y.charges[i])
      && var c := y'.charges[e.id];
         && c.key == y.charges[e.id].key && c.cfg == cfg && c.token == y.charges[e.id].token && c.outcome.Some?
         && var told := c.outcome.value;
            match e.reply
            case Admitted => told == Admit
            case Refused(retry) => told == Refusal(Global, retry, cfg.name, None, None, true)
            case Unreachable =>
              if !e.failOpen then
                && told.Refusal? && told.scope == Unavailable && told.limiter == cfg.name && !told.evaluated
                && told.limit.None? && told.windowSec.None? && FewestSeconds(told.retryAfterSec, 0, 3000)
              else if |all| < cfg.global then told == Admit
              else Says(told, Global, cfg, all, e.t3) && told.limit.None? && told.windowSec.None?
  {
    InvFits(conf, y, e.id);
    hide Inv, VerdictOn, Holders, LocalGlobalKey, HonestWait, FewestSeconds, Fits, Next, Settled, Says, UnavailableRefusal;
    NextFollows(conf, y, e);
    if e.reply.Unreachable? {
      UnavailableWords(y.charges[e.id].cfg);
      SettledWords(conf, y.charges, e.id, e.t3, e.t4);
    }
  }

  lemma UnavailableWords(cfg: RateLimitConfig)
    ensures
      var r := UnavailableRefusal(cfg);
      && r.Refusal? && r.scope == Unavailable && r.limiter == cfg.name && !r.evaluated
      && r.limit.None? && r.windowSec.None? && FewestSeconds(r.retryAfterSec, 0, 3000)
  {
  }

  lemma SettledWords(conf: Key -> Config, charges: seq<Charge>, id: nat, t3: int, t4: int)
    requires id < |charges| && Fits(conf, charges[id].key, charges[id].cfg)
    ensures
      var after := Settled(conf, charges, id, t3, t4);
      var cfg := charges[id].cfg;
      var all := Holders(conf, charges, LocalGlobalKey(cfg), t3);
      && (forall i :: 0 <= i < |charges| && i != id ==> after[i] == charges[i])
      && var c := after[id];
         && c.key == charges[id].key && c.cfg == cfg && c.token == charges[id].token && c.outcome.Some?
         && (if |all| < cfg.global then c.outcome.value == Admit
             else Says(c.outcome.value, Global, cfg, all, t3) && c.outcome.value.limit.None? && c.outcome.value.windowSec.None?)
  {
    hide VerdictOn, Holders, LocalGlobalKey, HonestWait;
    VerdictIsHonest(conf, charges, LocalGlobalKey(charges[id].cfg), t3);
  }
}
