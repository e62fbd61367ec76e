/**
 The charge pipeline (src/lib/rate-limit-charge.ts): reserve the caller's slot, charge the global
 ceiling, commit or release. The shared form awaits a store between the reservation and its
 settlement, so a run is a sequence of synchronous segments of many interleaved charges.
 */
module RateLimitCharge {
  import opened Common
  import opened SlidingWindow
  import opened RateLimitWindow

  datatype RateLimitConfig = RateLimitConfig(name: string, perIp: nat, global: nat, windowMs: int)

  datatype Scope = Ip | Global | Unavailable

  datatype Result =
    | Admit
    | Refusal(scope: Scope, retryAfterSec: int, limiter: string, limit: Option<nat>, windowSec: Option<int>, evaluated: bool)

  /** The shared store's answer; `Unreachable` when it never gave one. */
  datatype Reply = Admitted | Refused(retryAfterSec: int) | Unreachable

  datatype Kind = RateLimit | RateLimitUnavailable

  datatype QuotaEvent = QuotaEvent(kind: Kind, series: string)

  const SHARED_STORE_BREAKER_MS := 3_000

  function LocalGlobalKey(cfg: RateLimitConfig): Key {
    cfg.name + ":__global__"
  }

  function IpKey(cfg: RateLimitConfig, address: string): Key {
    cfg.name + ":ip:" + address
  }

  function CallerKey(cfg: RateLimitConfig, id: string): Key {
    cfg.name + ":key:" + id
  }

  /** No caller, whatever its address or token, is charged against the window of its own limiter's ceiling. */
  lemma CallersAreNotTheCeiling(cfg: RateLimitConfig, who: string)
    ensures IpKey(cfg, who) != LocalGlobalKey(cfg)
    ensures CallerKey(cfg, who) != LocalGlobalKey(cfg)
  {
    assert IpKey(cfg, who)[|cfg.name| + 1] == 'i';
    assert CallerKey(cfg, who)[|cfg.name| + 1] == 'k';
    assert LocalGlobalKey(cfg)[|cfg.name| + 1] == '_';
  }

  /** Within a limiter every address and every token has a window of its own; ceilings are one per limiter name. */
  lemma CallersHaveTheirOwnWindows(cfg: RateLimitConfig, a: string, b: string, other: RateLimitConfig)
    ensures IpKey(cfg, a) == IpKey(cfg, b) <==> a == b
    ensures CallerKey(cfg, a) == CallerKey(cfg, b) <==> a == b
    ensures IpKey(cfg, a) != CallerKey(cfg, b)
    ensures LocalGlobalKey(cfg) == LocalGlobalKey(other) <==> cfg.name == other.name
  {
    var n := |cfg.name|;
    assert IpKey(cfg, a)[n + 4..] == a && IpKey(cfg, b)[n + 4..] == b;
    assert CallerKey(cfg, a)[n + 5..] == a && CallerKey(cfg, b)[n + 5..] == b;
    assert IpKey(cfg, a)[n + 1] == 'i' && CallerKey(cfg, b)[n + 1] == 'k';
    var mine, theirs := LocalGlobalKey(cfg), LocalGlobalKey(other);
    assert mine[..|mine| - 11] == cfg.name && theirs[..|theirs| - 11] == other.name;
  }

  function PerIpRefusal(cfg: RateLimitConfig, retryAfterSec: int): Result {
    Refusal(Ip, retryAfterSec, cfg.name, Some(cfg.perIp), Some(Max(1, (cfg.windowMs + 500) / 1000)), true)
  }

  function GlobalRefusal(cfg: RateLimitConfig, retryAfterSec: int): Result {
    Refusal(Global, retryAfterSec, cfg.name, None, None, true)
  }

  function UnavailableRefusal(cfg: RateLimitConfig): Result {
    Refusal(Unavailable, Max(1, CeilSeconds(SHARED_STORE_BREAKER_MS)), cfg.name, None, None, false)
  }

  function Tally(cfg: RateLimitConfig, r: Result): QuotaEvent
    requires r.Refusal?
  {
    if r.scope == Unavailable then QuotaEvent(RateLimitUnavailable, cfg.name)
    else QuotaEvent(RateLimit, if r.scope == Global then cfg.name + ":global" else cfg.name)
  }

  // ---- the system --------------------------------------------------------------------------------

  /** One request. `outcome` is empty while it awaits the store; `globalHit` is its in-memory ceiling slot. */
  datatype Charge = Charge(key: Key, cfg: RateLimitConfig, token: int, globalHit: Option<int>, outcome: Option<Result>)

  /** `ledger` and `clock` are history variables: what a limiter that forgets nothing would hold, and when. */
  datatype System = System(lim: State, ledger: Ledger, charges: seq<Charge>, counted: seq<QuotaEvent>, clock: int)

  const EMPTY := System(INITIAL, map[], [], [], 0)

  /** One synchronous segment. `Begin` carries the clock reads of the whole segment; `Resume` continues charge `id`. */
  datatype Event =
    | Begin(key: Key, cfg: RateLimitConfig, shared: bool, t1: int, t2: int, t3: int, t4: int)
    | Resume(id: nat, reply: Reply, failOpen: bool, t3: int, t4: int)

  function Apply(conf: Key -> Config, y: System, op: Op): (r: (System, Verdict))
    requires CursorOk(y.lim)
    ensures CursorOk(r.0.lim) && r.0.charges == y.charges && r.0.counted == y.counted
  {
    var (lim, v) := Step(conf, y.lim, op);
    (y.(lim := lim, ledger := LedgerStep(conf, y.ledger, op).0, clock := End(op)), v)
  }

  /** Commit: the reservation stands as the served request's hit. */
  function Commit(y: System, id: nat, globalHit: Option<int>): (r: System)
    requires id < |y.charges|
  {
    y.(charges := y.charges[id := y.charges[id].(globalHit := globalHit, outcome := Some(Admit))])
  }

  /** Release the reservation by its token and refuse; the refusal is counted once. */
  function Refuse(conf: Key -> Config, y: System, id: nat, r: Result, now: int): (y': System)
    requires CursorOk(y.lim) && id < |y.charges| && r.Refusal?
    ensures CursorOk(y'.lim)
  {
    var c := y.charges[id];
    var freed := Apply(conf, y, Release(c.key, c.token, now)).0;
    freed.(charges := y.charges[id := c.(outcome := Some(r))], counted := y.counted + [Tally(c.cfg, r)])
  }

  function SettleLocal(conf: Key -> Config, y: System, id: nat, t3: int, t4: int): (y': System)
    requires CursorOk(y.lim) && id < |y.charges|
    ensures CursorOk(y'.lim)
  {
    var c := y.charges[id];
    var (charged, g) := Apply(conf, y, Hit(LocalGlobalKey(c.cfg), t3, t4));
    if g.Ok? then Commit(charged, id, Some(t4))
    else Refuse(conf, charged, id, GlobalRefusal(c.cfg, g.retryAfterSec), t4)
  }

  function Next(conf: Key -> Config, y: System, e: Event): (y': System)
    requires CursorOk(y.lim) && (e.Resume? ==> e.id < |y.charges|)
    ensures CursorOk(y'.lim)
  {
    match e
    case Begin(key, cfg, shared, t1, t2, t3, t4) =>
      var (reserved, v) := Apply(conf, y, Reserve(key, t1, t2));
      if v.Wait? then
        var refusal := PerIpRefusal(cfg, v.retryAfterSec);
        reserved.(charges := y.charges + [Charge(key, cfg, t2, None, Some(refusal))],
                  counted := y.counted + [Tally(cfg, refusal)])
      else
        var held := reserved.(charges := y.charges + [Charge(key, cfg, t2, None, None)]);
        if shared then held else SettleLocal(conf, held, |y.charges|, t3, t4)
    case Resume(id, reply, failOpen, t3, t4) =>
      var c := y.charges[id];
      match reply
      case Admitted => Commit(y.(clock := t3), id, None)
      case Refused(retry) => Refuse(conf, y, id, GlobalRefusal(c.cfg, retry), t3)
      case Unreachable =>
        if failOpen then SettleLocal(conf, y, id, t3, t4)
        else Refuse(conf, y, id, UnavailableRefusal(c.cfg), t3)
  }

  /** Every key has one budget; a caller's key is not its limiter's ceiling. */
  ghost predicate Fits(conf: Key -> Config, key: Key, cfg: RateLimitConfig) {
    && key != LocalGlobalKey(cfg)
    && conf(key) == Config(cfg.perIp, cfg.windowMs)
    && conf(LocalGlobalKey(cfg)) == Config(cfg.global, cfg.windowMs)
  }

  /** What the environment may do next: the clock never goes back, only an awaiting charge resumes. */
  ghost predicate Enabled(conf: Key -> Config, y: System, e: Event) {
    match e
    case Begin(key, cfg, _, t1, t2, t3, t4) => Fits(conf, key, cfg) && y.clock <= t1 <= t2 <= t3 <= t4
    case Resume(id, _, _, t3, t4) => id < |y.charges| && y.charges[id].outcome.None? && y.clock <= t3 <= t4
  }

  ghost predicate Possible(conf: Key -> Config, y: System, events: seq<Event>)
    requires CursorOk(y.lim)
    decreases |events|
  {
    events != [] ==> Enabled(conf, y, events[0]) && Possible(conf, Next(conf, y, events[0]), events[1..])
  }

  ghost function After(conf: Key -> Config, y: System, events: seq<Event>): (y': System)
    requires CursorOk(y.lim) && Possible(conf, y, events)
    ensures CursorOk(y'.lim)
    decreases |events|
  {
    if events == [] then y else After(conf, Next(conf, y, events[0]), events[1..])
  }

  /** Whatever is enabled after a run can come next. */
  lemma {:induction false} RunGoesOn(conf: Key -> Config, y: System, events: seq<Event>, e: Event)
    requires CursorOk(y.lim) && Possible(conf, y, events) && Enabled(conf, After(conf, y, events), e)
    ensures Possible(conf, y, events + [e])
    ensures After(conf, y, events + [e]) == Next(conf, After(conf, y, events), e)
    decreases |events|
  {
    hide Next, Fits;
    if events == [] {
      assert ([] + [e])[1..] == [];
    } else {
      assert (events + [e])[1..] == events[1..] + [e];
      RunGoesOn(conf, Next(conf, y, events[0]), events[1..], e);
    }
  }

  // ---- who holds what ----------------------------------------------------------------------------

  predicate Holding(c: Charge) {
    !(c.outcome.Some? && c.outcome.value.Refusal?)
  }

  /** The slots one charge holds in the window of `key`: its reservation while not refused, and its ceiling slot. */
  function SlotsOf(c: Charge, key: Key): seq<int> {
    (if Holding(c) && c.key == key then [c.token] else [])
    + (if c.globalHit.Some? && LocalGlobalKey(c.cfg) == key then [c.globalHit.value] else [])
  }

  /** The slots in-flight and served charges hold in the window of `key`. */
  function HeldIn(charges: seq<Charge>, key: Key): seq<int> {
    if charges == [] then [] else HeldIn(charges[..|charges| - 1], key) + SlotsOf(charges[|charges| - 1], key)
  }

  // The same by multiplicity, where updates are plain arithmetic.

  function SlotCount(c: Charge, key: Key, t: int): nat {
    (if Holding(c) && c.key == key && c.token == t then 1 else 0)
    + (if c.globalHit == Some(t) && LocalGlobalKey(c.cfg) == key then 1 else 0)
  }

  function HeldCount(charges: seq<Charge>, key: Key, t: int): nat {
    if charges == [] then 0
    else HeldCount(charges[..|charges| - 1], key, t) + SlotCount(charges[|charges| - 1], key, t)
  }

  lemma SlotsCounted(c: Charge, key: Key, t: int)
    ensures multiset(SlotsOf(c, key))[t] == SlotCount(c, key, t)
  {
  }

  lemma {:induction false} HeldCounted(charges: seq<Charge>, key: Key, t: int)
    ensures multiset(HeldIn(charges, key))[t] == HeldCount(charges, key, t)
  {
    hide SlotsOf, SlotCount;
    if charges != [] {
      HeldCounted(charges[..|charges| - 1], key, t);
      SlotsCounted(charges[|charges| - 1], key, t);
    }
  }

  lemma {:induction false} HeldCountUpdate(charges: seq<Charge>, id: nat, c: Charge, key: Key, t: int)
    requires id < |charges|
    ensures HeldCount(charges[id := c], key, t) + SlotCount(charges[id], key, t)
         == HeldCount(charges, key, t) + SlotCount(c, key, t)
  {
    hide SlotCount;
    var n := |charges| - 1;
    if id == n {
      assert charges[id := c][..n] == charges[..n];
    } else {
      assert charges[id := c][..n] == charges[..n][id := c];
      HeldCountUpdate(charges[..n], id, c, key, t);
    }
  }

  lemma {:induction false} HeldCountRemove(charges: seq<Charge>, id: nat, key: Key, t: int)
    requires id < |charges|
    ensures HeldCount(charges[..id] + charges[id + 1..], key, t) + SlotCount(charges[id], key, t)
         == HeldCount(charges, key, t)
  {
    hide SlotCount;
    var n := |charges| - 1;
    if id == n {
      assert charges[..id] + charges[id + 1..] == charges[..n];
    } else {
      var cut := charges[..id] + charges[id + 1..];
      assert |cut| == n && cut[n - 1] == charges[n];
      assert cut[..n - 1] == charges[..n][..id] + charges[..n][id + 1..];
      HeldCountRemove(charges[..n], id, key, t);
    }
  }

  lemma HeldCountAppend(charges: seq<Charge>, c: Charge, key: Key, t: int)
    ensures HeldCount(charges + [c], key, t) == HeldCount(charges, key, t) + SlotCount(c, key, t)
  {
    assert (charges + [c])[..|charges|] == charges;
  }

  // ---- the invariant -----------------------------------------------------------------------------

  ghost predicate LedgerIsHeld(ledger: Ledger, charges: seq<Charge>) {
    forall key, t :: multiset(Entries(ledger, key))[t] == HeldCount(charges, key, t)
  }

  ghost predicate ChargesOk(conf: Key -> Config, charges: seq<Charge>) {
    forall i :: 0 <= i < |charges| ==>
      && Fits(conf, charges[i].key, charges[i].cfg)
      && (charges[i].globalHit.Some? ==> charges[i].outcome == Some(Admit))
  }

  function Refusals(charges: seq<Charge>): nat {
    if charges == [] then 0
    else Refusals(charges[..|charges| - 1]) + (if Holding(charges[|charges| - 1]) then 0 else 1)
  }

  ghost predicate Inv(conf: Key -> Config, y: System) {
    && Tracks(conf, y.lim, y.ledger, y.clock)
    && LedgerOk(conf, y.ledger, y.clock)
    && LedgerIsHeld(y.ledger, y.charges)
    && ChargesOk(conf, y.charges)
    && |y.counted| == Refusals(y.charges)
  }

  lemma ApplyKeeps(conf: Key -> Config, y: System, op: Op)
    requires Tracks(conf, y.lim, y.ledger, y.clock) && LedgerOk(conf, y.ledger, y.clock)
    requires y.clock <= Start(op) <= End(op)
    ensures CursorOk(y.lim)
    ensures var (r, v) := Apply(conf, y, op);
            && Tracks(conf, r.lim, r.ledger, r.clock)
            && LedgerOk(conf, r.ledger, r.clock)
            && r.ledger == LedgerStep(conf, y.ledger, op).0
            && r.clock == End(op)
            && v == LedgerStep(conf, y.ledger, op).1
  {
    TracksKey(conf, y.lim, y.ledger, y.clock, op.key);
    hide Tracks, LedgerOk, Step, LedgerStep;
    TracksLater(conf, y.lim, y.ledger, y.clock, Start(op));
    LedgerOkLater(conf, y.ledger, y.clock, Start(op));
    StepTracks(conf, y.lim, y.ledger, op);
    LedgerStepOk(conf, y.ledger, op);
  }

  lemma {:induction false} RefusalsUpdate(charges: seq<Charge>, id: nat, c: Charge)
    requires id < |charges| && Holding(charges[id])
    ensures Refusals(charges[id := c]) == Refusals(charges) + (if Holding(c) then 0 else 1)
  {
    var n := |charges| - 1;
    if id == n {
      assert charges[id := c][..n] == charges[..n];
    } else {
      assert charges[id := c][..n] == charges[..n][id := c];
      RefusalsUpdate(charges[..n], id, c);
    }
  }

  lemma RefusalsAppend(charges: seq<Charge>, c: Charge)
    ensures Refusals(charges + [c]) == Refusals(charges) + (if Holding(c) then 0 else 1)
  {
    assert (charges + [c])[..|charges|] == charges;
  }

  // What each ledger change does to what charges hold.

  lemma ReserveHeld(ledger: Ledger, charges: seq<Charge>, c: Charge)
    requires LedgerIsHeld(ledger, charges) && c.globalHit.None?
    ensures LedgerIsHeld(if Holding(c) then ledger[c.key := Entries(ledger, c.key) + [c.token]] else ledger, charges + [c])
  {
    hide HeldCount;
    var ledger' := if Holding(c) then ledger[c.key := Entries(ledger, c.key) + [c.token]] else ledger;
    forall key, t
      ensures multiset(Entries(ledger', key))[t] == HeldCount(charges + [c], key, t)
    {
      HeldCountAppend(charges, c, key, t);
    }
  }

  lemma CommitHeld(ledger: Ledger, charges: seq<Charge>, id: nat, globalHit: Option<int>)
    requires LedgerIsHeld(ledger, charges)
    requires id < |charges| && charges[id].outcome.None? && charges[id].globalHit.None?
    ensures var g := LocalGlobalKey(charges[id].cfg);
            LedgerIsHeld(if globalHit.Some? then ledger[g := Entries(ledger, g) + [globalHit.value]] else ledger,
                         charges[id := charges[id].(globalHit := globalHit, outcome := Some(Admit))])
  {
    hide HeldCount, LocalGlobalKey;
    var c := charges[id];
    var c' := c.(globalHit := globalHit, outcome := Some(Admit));
    var g := LocalGlobalKey(c.cfg);
    var ledger' := if globalHit.Some? then ledger[g := Entries(ledger, g) + [globalHit.value]] else ledger;
    forall key, t
      ensures multiset(Entries(ledger', key))[t] == HeldCount(charges[id := c'], key, t)
    {
      HeldCountUpdate(charges, id, c', key, t);
    }
  }

  lemma RefuseHeld(ledger: Ledger, charges: seq<Charge>, id: nat, r: Result)
    requires LedgerIsHeld(ledger, charges) && r.Refusal?
    requires id < |charges| && charges[id].outcome.None? && charges[id].globalHit.None?
    ensures var c := charges[id];
            LedgerIsHeld(ledger[c.key := Without(Entries(ledger, c.key), c.token)],
                         charges[id := c.(outcome := Some(r))])
  {
    hide HeldCount, Without;
    var c := charges[id];
    var c' := c.(outcome := Some(r));
    WithoutMultiset(Entries(ledger, c.key), c.token);
    var ledger' := ledger[c.key := Without(Entries(ledger, c.key), c.token)];
    forall key, t
      ensures multiset(Entries(ledger', key))[t] == HeldCount(charges[id := c'], key, t)
    {
      HeldCountUpdate(charges, id, c', key, t);
    }
  }

  lemma ChargesUpdate(conf: Key -> Config, charges: seq<Charge>, id: nat, c: Charge)
    requires ChargesOk(conf, charges) && id < |charges|
    requires c.key == charges[id].key && c.cfg == charges[id].cfg && (c.globalHit.Some? ==> c.outcome == Some(Admit))
    ensures ChargesOk(conf, charges[id := c])
  {
  }

  lemma ChargesAt(conf: Key -> Config, charges: seq<Charge>, id: nat)
    requires ChargesOk(conf, charges) && id < |charges|
    ensures Fits(conf, charges[id].key, charges[id].cfg)
    ensures charges[id].globalHit.Some? ==> charges[id].outcome == Some(Admit)
  {
  }

  /** An awaiting charge that commits, holding a ceiling slot at `globalHit` if the ledger just gained one. */
  lemma CommitKeeps(conf: Key -> Config, y: System, id: nat, before: Ledger, globalHit: Option<int>)
    requires Tracks(conf, y.lim, y.ledger, y.clock) && LedgerOk(conf, y.ledger, y.clock)
    requires ChargesOk(conf, y.charges) && |y.counted| == Refusals(y.charges)
    requires LedgerIsHeld(before, y.charges)
    requires id < |y.charges| && y.charges[id].outcome.None?
    requires var g := LocalGlobalKey(y.charges[id].cfg);
             y.ledger == if globalHit.Some? then before[g := Entries(before, g) + [globalHit.value]] else before
    ensures Inv(conf, Commit(y, id, globalHit))
  {
    hide Tracks, LedgerOk, ChargesOk, LedgerIsHeld;
    var c' := y.charges[id].(globalHit := globalHit, outcome := Some(Admit));
    ChargesAt(conf, y.charges, id);
    RefusalsUpdate(y.charges, id, c');
    ChargesUpdate(conf, y.charges, id, c');
    CommitHeld(before, y.charges, id, globalHit);
  }

  lemma RefuseKeeps(conf: Key -> Config, y: System, id: nat, r: Result, now: int)
    requires Inv(conf, y) && id < |y.charges| && y.charges[id].outcome.None?
    requires r.Refusal? && y.clock <= now && CursorOk(y.lim)
    ensures Inv(conf, Refuse(conf, y, id, r, now))
  {
    hide Tracks, LedgerOk, ChargesOk, LedgerIsHeld;
    var c' := y.charges[id].(outcome := Some(r));
    ApplyKeeps(conf, y, Release(c'.key, c'.token, now));
    ChargesAt(conf, y.charges, id);
    RefusalsUpdate(y.charges, id, c');
    ChargesUpdate(conf, y.charges, id, c');
    RefuseHeld(y.ledger, y.charges, id, r);
  }

  lemma SettleLocalKeeps(conf: Key -> Config, y: System, id: nat, t3: int, t4: int)
    requires Inv(conf, y) && id < |y.charges| && y.charges[id].outcome.None?
    requires y.clock <= t3 <= t4 && CursorOk(y.lim)
    ensures Inv(conf, SettleLocal(conf, y, id, t3, t4))
  {
    hide Tracks, LedgerOk, LedgerIsHeld, ChargesOk, Refuse, Commit, Judge, Apply, Refusals;
    var c := y.charges[id];
    var op := Hit(LocalGlobalKey(c.cfg), t3, t4);
    ApplyKeeps(conf, y, op);
    var (charged, g) := Apply(conf, y, op);
    if g.Ok? {
      CommitKeeps(conf, charged, id, y.ledger, Some(t4));
    } else {
      RefuseKeeps(conf, charged, id, GlobalRefusal(c.cfg, g.retryAfterSec), t4);
    }
  }

  lemma ReservedKeeps(conf: Key -> Config, y: System, key: Key, cfg: RateLimitConfig, t1: int, t2: int, c: Charge)
    requires Inv(conf, y) && CursorOk(y.lim) && Fits(conf, key, cfg) && y.clock <= t1 <= t2
    requires c == Charge(key, cfg, t2, None, c.outcome)
    requires var v := Apply(conf, y, Reserve(key, t1, t2)).1;
             if v.Ok? then c.outcome == None else c.outcome == Some(PerIpRefusal(cfg, v.retryAfterSec))
    ensures var r := Apply(conf, y, Reserve(key, t1, t2)).0;
            && Tracks(conf, r.lim, r.ledger, r.clock) && LedgerOk(conf, r.ledger, r.clock) && r.clock == t2
            && LedgerIsHeld(r.ledger, y.charges + [c])
            && ChargesOk(conf, y.charges + [c])
            && Refusals(y.charges + [c]) == Refusals(y.charges) + (if c.outcome.Some? then 1 else 0)
  {
    ChargesAppend(conf, y.charges, c);
    hide Tracks, LedgerOk, Judge, Apply, LedgerIsHeld, ChargesOk, Fits;
    ApplyKeeps(conf, y, Reserve(key, t1, t2));
    RefusalsAppend(y.charges, c);
    ReserveHeld(y.ledger, y.charges, c);
  }

  lemma ChargesAppend(conf: Key -> Config, charges: seq<Charge>, c: Charge)
    requires ChargesOk(conf, charges) && Fits(conf, c.key, c.cfg) && c.globalHit.None?
    ensures ChargesOk(conf, charges + [c])
  {
  }

  lemma BeginKeeps(conf: Key -> Config, y: System, e: Event)
    requires Inv(conf, y) && e.Begin? && Enabled(conf, y, e) && CursorOk(y.lim)
    ensures Inv(conf, Next(conf, y, e))
  {
    hide Tracks, LedgerOk, LedgerIsHeld, ChargesOk, SettleLocal, Apply;
    var (reserved, v) := Apply(conf, y, Reserve(e.key, e.t1, e.t2));
    var c := Charge(e.key, e.cfg, e.t2, None, if v.Ok? then None else Some(PerIpRefusal(e.cfg, v.retryAfterSec)));
    ReservedKeeps(conf, y, e.key, e.cfg, e.t1, e.t2, c);
    if v.Ok? {
      var held := reserved.(charges := y.charges + [c]);
      if !e.shared {
        SettleLocalKeeps(conf, held, |y.charges|, e.t3, e.t4);
      }
    }
  }

  lemma ResumeKeeps(conf: Key -> Config, y: System, e: Event)
    requires Inv(conf, y) && e.Resume? && Enabled(conf, y, e) && CursorOk(y.lim)
    ensures Inv(conf, Next(conf, y, e))
  {
    hide Tracks, LedgerOk, LedgerIsHeld, ChargesOk, SettleLocal, Refuse, Commit;
    var c := y.charges[e.id];
    match e.reply
    case Admitted =>
      TracksLater(conf, y.lim, y.ledger, y.clock, e.t3);
      LedgerOkLater(conf, y.ledger, y.clock, e.t3);
      CommitKeeps(conf, y.(clock := e.t3), e.id, y.ledger, None);
    case Refused(retry) =>
      RefuseKeeps(conf, y, e.id, GlobalRefusal(c.cfg, retry), e.t3);
    case Unreachable =>
      if e.failOpen {
        SettleLocalKeeps(conf, y, e.id, e.t3, e.t4);
      } else {
        RefuseKeeps(conf, y, e.id, UnavailableRefusal(c.cfg), e.t3);
      }
  }

  lemma {:induction false} RunKeeps(conf: Key -> Config, y: System, events: seq<Event>)
    requires CursorOk(y.lim) && Inv(conf, y) && Possible(conf, y, events)
    ensures Inv(conf, After(conf, y, events))
    decreases |events|
  {
    if events != [] {
      hide Inv, Next;
      if events[0].Begin? {
        BeginKeeps(conf, y, events[0]);
      } else {
        ResumeKeeps(conf, y, events[0]);
      }
      RunKeeps(conf, Next(conf, y, events[0]), events[1..]);
    }
  }

  lemma EmptyInv(conf: Key -> Config)
    ensures Inv(conf, EMPTY)
  {
  }

  // ---- the theorems ------------------------------------------------------------------------------

  /**
   Whatever the interleaving, the live timestamps of every window are exactly the slots of its
   in-flight and served charges, and over any half-open interval one window long those never
   exceed the key's limit.
   */
  lemma WindowIsItsHolders(conf: Key -> Config, events: seq<Event>, key: Key, from: int)
    requires Possible(conf, EMPTY, events)
    ensures var y := After(conf, EMPTY, events);
            var cutoff := y.clock - conf(key).windowMs;
            && multiset(Live(Hits(y.lim.slots, key), cutoff)) == multiset(Live(HeldIn(y.charges, key), cutoff))
            && CountIn(HeldIn(y.charges, key), from, from + conf(key).windowMs) <= conf(key).limit
  {
    hide Inv, After;
    EmptyInv(conf);
    RunKeeps(conf, EMPTY, events);
    InvAt(conf, After(conf, EMPTY, events), key, from);
  }

  lemma InvAt(conf: Key -> Config, y: System, key: Key, from: int)
    requires Inv(conf, y)
    ensures EntriesOk(Entries(y.ledger, key), conf(key), y.clock)
    ensures multiset(Entries(y.ledger, key)) == multiset(HeldIn(y.charges, key))
    ensures var cutoff := y.clock - conf(key).windowMs;
            && multiset(Live(Hits(y.lim.slots, key), cutoff)) == multiset(Live(HeldIn(y.charges, key), cutoff))
            && CountIn(HeldIn(y.charges, key), from, from + conf(key).windowMs) <= conf(key).limit
  {
    var entries, held := Entries(y.ledger, key), HeldIn(y.charges, key);
    hide Tracks, LedgerOk, LedgerIsHeld, Live, CountIn, HeldIn, EntriesOk, Hits;
    LedgerAt(conf, y, key);
    TracksKey(conf, y.lim, y.ledger, y.clock, key);
    LiveMultiset(entries, held, y.clock - conf(key).windowMs);
    EntriesBound(entries, conf(key), y.clock, from);
    CountInMultiset(entries, held, from, from + conf(key).windowMs);
  }

  lemma LedgerAt(conf: Key -> Config, y: System, key: Key)
    requires Inv(conf, y)
    ensures EntriesOk(Entries(y.ledger, key), conf(key), y.clock)
    ensures multiset(Entries(y.ledger, key)) == multiset(HeldIn(y.charges, key))
  {
    hide Tracks, EntriesOk, HeldIn, Entries, ChargesOk, Refusals, HeldCount;
    forall t
      ensures multiset(Entries(y.ledger, key))[t] == multiset(HeldIn(y.charges, key))[t]
    {
      HeldCounted(y.charges, key, t);
    }
  }

  lemma EntriesBound(entries: seq<int>, c: Config, clock: int, from: int)
    requires EntriesOk(entries, c, clock)
    ensures CountIn(entries, from, from + c.windowMs) <= c.limit
  {
    SpacedBoundsEveryInterval(entries, c.limit, c.windowMs, from);
  }

  lemma InvChargesAt(conf: Key -> Config, y: System, id: nat)
    requires Inv(conf, y) && id < |y.charges|
    ensures y.charges[id].globalHit.Some? ==> y.charges[id].outcome == Some(Admit)
  {
  }

  /** Each refusal is counted once, and nothing else is. */
  lemma RefusalsCountedOnce(conf: Key -> Config, events: seq<Event>)
    requires Possible(conf, EMPTY, events)
    ensures |After(conf, EMPTY, events).counted| == Refusals(After(conf, EMPTY, events).charges)
  {
    hide Tracks, LedgerOk, LedgerIsHeld, ChargesOk, After, Refusals;
    EmptyInv(conf);
    RunKeeps(conf, EMPTY, events);
  }

  /** A refusal belongs to one series: the limiter's own, its ceiling's, or its outages, which no budget caused. */
  predicate Belongs(c: Charge, e: QuotaEvent) {
    && !Holding(c)
    && match c.outcome.value.scope
       case Ip => e == QuotaEvent(RateLimit, c.cfg.name)
       case Global => e == QuotaEvent(RateLimit, c.cfg.name + ":global")
       case Unavailable => e == QuotaEvent(RateLimitUnavailable, c.cfg.name)
  }

  function RefusedInto(charges: seq<Charge>, e: QuotaEvent): nat {
    if charges == [] then 0
    else RefusedInto(charges[..|charges| - 1], e) + (if Belongs(charges[|charges| - 1], e) then 1 else 0)
  }

  lemma {:induction false} RefusedIntoUpdate(charges: seq<Charge>, id: nat, c: Charge, e: QuotaEvent)
    requires id < |charges| && Holding(charges[id])
    ensures RefusedInto(charges[id := c], e) == RefusedInto(charges, e) + (if Belongs(c, e) then 1 else 0)
  {
    var n := |charges| - 1;
    if id == n {
      assert charges[id := c][..n] == charges[..n];
    } else {
      assert charges[id := c][..n] == charges[..n][id := c];
      RefusedIntoUpdate(charges[..n], id, c, e);
    }
  }

  lemma RefusedIntoAppend(charges: seq<Charge>, c: Charge, e: QuotaEvent)
    ensures RefusedInto(charges + [c], e) == RefusedInto(charges, e) + (if Belongs(c, e) then 1 else 0)
  {
    assert (charges + [c])[..|charges|] == charges;
  }

  lemma TalliedWhereItBelongs(c: Charge, e: QuotaEvent)
    requires !Holding(c)
    ensures Tally(c.cfg, c.outcome.value) == e <==> Belongs(c, e)
  {
  }

  ghost predicate Tallied(y: System, e: QuotaEvent) {
    multiset(y.counted)[e] == RefusedInto(y.charges, e)
  }

  lemma RefuseTallies(conf: Key -> Config, y: System, id: nat, r: Result, now: int, e: QuotaEvent)
    requires CursorOk(y.lim) && id < |y.charges| && Holding(y.charges[id]) && r.Refusal? && Tallied(y, e)
    ensures Tallied(Refuse(conf, y, id, r, now), e)
  {
    hide Tally, Belongs, Apply;
    var c := y.charges[id].(outcome := Some(r));
    RefusedIntoUpdate(y.charges, id, c, e);
    TalliedWhereItBelongs(c, e);
  }

  lemma SettleTallies(conf: Key -> Config, y: System, id: nat, t3: int, t4: int, e: QuotaEvent)
    requires CursorOk(y.lim) && id < |y.charges| && Holding(y.charges[id]) && Tallied(y, e)
    ensures Tallied(SettleLocal(conf, y, id, t3, t4), e)
  {
    hide Apply, Tallied, Refuse, LocalGlobalKey;
    var (charged, g) := Apply(conf, y, Hit(LocalGlobalKey(y.charges[id].cfg), t3, t4));
    SameTallies(y, charged, e);
    if g.Ok? {
      CommitTallies(charged, id, Some(t4), e);
    } else {
      RefuseTallies(conf, charged, id, GlobalRefusal(y.charges[id].cfg, g.retryAfterSec), t4, e);
    }
  }

  lemma SameTallies(y: System, z: System, e: QuotaEvent)
    requires z.charges == y.charges && z.counted == y.counted
    ensures Tallied(z, e) <==> Tallied(y, e)
  {
  }

  lemma CommitTallies(y: System, id: nat, globalHit: Option<int>, e: QuotaEvent)
    requires id < |y.charges| && Holding(y.charges[id]) && Tallied(y, e)
    ensures Tallied(Commit(y, id, globalHit), e)
  {
    RefusedIntoUpdate(y.charges, id, y.charges[id].(globalHit := globalHit, outcome := Some(Admit)), e);
  }

  lemma NextTallies(conf: Key -> Config, y: System, step: Event, e: QuotaEvent)
    requires CursorOk(y.lim) && Enabled(conf, y, step) && Tallied(y, e)
    ensures Tallied(Next(conf, y, step), e)
  {
    hide Apply, Refuse, SettleLocal, Commit, Belongs, Tally, Fits;
    match step
    case Begin(key, cfg, shared, t1, t2, t3, t4) =>
      var (reserved, v) := Apply(conf, y, Reserve(key, t1, t2));
      var c := Charge(key, cfg, t2, None, if v.Wait? then Some(PerIpRefusal(cfg, v.retryAfterSec)) else None);
      RefusedIntoAppend(y.charges, c, e);
      if v.Wait? {
        TalliedWhereItBelongs(c, e);
      } else {
        HoldingBelongsNowhere(c, e);
        if !shared {
          SettleTallies(conf, reserved.(charges := y.charges + [c]), |y.charges|, t3, t4, e);
        }
      }
    case Resume(id, reply, failOpen, t3, t4) =>
      match reply
      case Admitted => CommitTallies(y.(clock := t3), id, None, e);
      case Refused(retry) => RefuseTallies(conf, y, id, GlobalRefusal(y.charges[id].cfg, retry), t3, e);
      case Unreachable =>
        if failOpen {
          SettleTallies(conf, y, id, t3, t4, e);
        } else {
          RefuseTallies(conf, y, id, UnavailableRefusal(y.charges[id].cfg), t3, e);
        }
  }

  lemma HoldingBelongsNowhere(c: Charge, e: QuotaEvent)
    requires Holding(c)
    ensures !Belongs(c, e)
  {
  }

  lemma {:induction false} RunTallies(conf: Key -> Config, y: System, events: seq<Event>, e: QuotaEvent)
    requires CursorOk(y.lim) && Possible(conf, y, events) && Tallied(y, e)
    ensures Tallied(After(conf, y, events), e)
    decreases |events|
  {
    hide Next, Tallied, Fits;
    if events != [] {
      NextTallies(conf, y, events[0], e);
      RunTallies(conf, Next(conf, y, events[0]), events[1..], e);
    }
  }

  /**
   After every run each series was counted exactly as often as charges were refused into it: a caller's own
   budget under the limiter's name, the ceiling under its own series, an outage apart from both.
   */
  lemma EachSeriesCountsItsRefusals(conf: Key -> Config, events: seq<Event>, e: QuotaEvent)
    requires Possible(conf, EMPTY, events)
    ensures multiset(After(conf, EMPTY, events).counted)[e] == RefusedInto(After(conf, EMPTY, events).charges, e)
  {
    RunTallies(conf, EMPTY, events, e);
  }

  /**
   A charge is refused by its caller's own budget exactly when in-flight and served charges of that
   caller already fill it; such a refusal leaves every window, the ceiling's included, as it was.
   */
  lemma PerIpRefusalIsHonest(conf: Key -> Config, y: System, e: Event, other: Key)
    requires Inv(conf, y) && CursorOk(y.lim) && e.Begin? && Enabled(conf, y, e)
    ensures var y' := Next(conf, y, e);
            var refused := |y'.charges| > 0 && y'.charges[|y'.charges| - 1].outcome.Some?
                           && y'.charges[|y'.charges| - 1].outcome.value.Refusal?
                           && y'.charges[|y'.charges| - 1].outcome.value.scope == Ip;
            var w := conf(other).windowMs;
            && |y'.charges| == |y.charges| + 1
            && (refused <==> |Live(HeldIn(y.charges, e.key), e.t1 - e.cfg.windowMs)| >= e.cfg.perIp)
            && (refused ==> y'.ledger == y.ledger
                            && Live(Hits(y'.lim.slots, other), e.t2 - w) == Live(Hits(y.lim.slots, other), e.t2 - w))
  {
    hide Tracks, LedgerOk, LedgerIsHeld, ChargesOk, Apply, SettleLocal, Live, Hits, HeldIn, Inv;
    InvTracks(conf, y);
    ApplyKeeps(conf, y, Reserve(e.key, e.t1, e.t2));
    var (reserved, v) := Apply(conf, y, Reserve(e.key, e.t1, e.t2));
    InvAt(conf, y, e.key, 0);
    var entries, held := Entries(y.ledger, e.key), HeldIn(y.charges, e.key);
    LiveMultiset(entries, held, e.t1 - e.cfg.windowMs);
    SameSize(Live(entries, e.t1 - e.cfg.windowMs), Live(held, e.t1 - e.cfg.windowMs));
    TracksKey(conf, reserved.lim, reserved.ledger, e.t2, other);
    TracksLater(conf, y.lim, y.ledger, y.clock, e.t2);
    TracksKey(conf, y.lim, y.ledger, e.t2, other);
    if v.Ok? && !e.shared {
      SettleLocalCharges(conf, reserved.(charges := y.charges + [Charge(e.key, e.cfg, e.t2, None, None)]), |y.charges|, e.t3, e.t4);
    }
  }

  lemma InvTracks(conf: Key -> Config, y: System)
    requires Inv(conf, y)
    ensures Tracks(conf, y.lim, y.ledger, y.clock) && LedgerOk(conf, y.ledger, y.clock)
  {
  }

  /** Settling resolves its own charge only, and never as a refusal by the caller's own budget. */
  lemma SettleLocalCharges(conf: Key -> Config, y: System, id: nat, t3: int, t4: int)
    requires CursorOk(y.lim) && id < |y.charges|
    ensures var r := SettleLocal(conf, y, id, t3, t4).charges;
            && |r| == |y.charges| && r == y.charges[id := r[id]]
            && r[id].outcome.Some? && (r[id].outcome.value.Refusal? ==> r[id].outcome.value.scope == Global)
  {
  }

  lemma SameSize(a: seq<int>, b: seq<int>)
    requires multiset(a) == multiset(b)
    ensures |a| == |b|
  {
    assert |multiset(a)| == |a| && |multiset(b)| == |b|;
  }

  /** The in-memory ceiling admits exactly while its in-window slots number fewer than `global`. */
  lemma CeilingIsHonest(conf: Key -> Config, y: System, id: nat, t3: int, t4: int)
    requires Inv(conf, y) && CursorOk(y.lim) && id < |y.charges| && y.charges[id].outcome.None?
    requires y.clock <= t3 <= t4
    ensures var c := y.charges[id];
            var r := SettleLocal(conf, y, id, t3, t4);
            && id < |r.charges|
            && (r.charges[id].outcome == Some(Admit)
                <==> |Live(HeldIn(y.charges, LocalGlobalKey(c.cfg)), t3 - c.cfg.windowMs)| < c.cfg.global)
  {
    hide Tracks, LedgerOk, LedgerIsHeld, Live, Hits, HeldIn, Inv, Step, LocalGlobalKey;
    var c := y.charges[id];
    var g := LocalGlobalKey(c.cfg);
    InvTracks(conf, y);
    InvFits(conf, y, id);
    InvAt(conf, y, g, 0);
    ApplyKeeps(conf, y, Hit(g, t3, t4));
    var entries, held := Entries(y.ledger, g), HeldIn(y.charges, g);
    LiveMultiset(entries, held, t3 - c.cfg.windowMs);
    SameSize(Live(entries, t3 - c.cfg.windowMs), Live(held, t3 - c.cfg.windowMs));
  }

  lemma InvFits(conf: Key -> Config, y: System, id: nat)
    requires Inv(conf, y) && id < |y.charges|
    ensures Fits(conf, y.charges[id].key, y.charges[id].cfg)
  {
  }

  // ---- the pipeline, updating the limiter in place -------------------------------------------------

  class ChargeDoor {
    const limiter: Limiter
    var counted: seq<QuotaEvent>
    ghost var ledger: Ledger
    ghost var charges: seq<Charge>
    ghost var clock: int

    ghost function View(): System
      reads this, limiter
    {
      System(limiter.View(), ledger, charges, counted, clock)
    }

    constructor ()
      ensures View() == EMPTY && fresh(limiter)
    {
      limiter := new Limiter();
      counted, ledger, charges, clock := [], map[], [], 0;
    }

    method CountRefusal(cfg: RateLimitConfig, r: Result) returns (same: Result)
      requires r.Refusal?
      modifies this`counted
      ensures counted == old(counted) + [Tally(cfg, r)] && same == r
    {
      counted := counted + [Tally(cfg, r)];
      same := r;
    }

    method Reserve(conf: Key -> Config, key: Key, cfg: RateLimitConfig, t1: int, t2: int) returns (v: Verdict)
      requires CursorOk(View().lim) && Fits(conf, key, cfg)
      modifies this`ledger, this`clock, limiter
      ensures (View(), v) == Apply(conf, old(View()), Op.Reserve(key, t1, t2))
    {
      v := limiter.ReserveHit(key, cfg.perIp, cfg.windowMs, t1, t2);
      ledger := LedgerStep(conf, ledger, Op.Reserve(key, t1, t2)).0;
      clock := t2;
    }

    method Release(conf: Key -> Config, key: Key, token: int, ghost id: nat, r: Result, cfg: RateLimitConfig, ghost now: int)
      returns (same: Result)
      requires CursorOk(View().lim) && r.Refusal?
      requires id < |charges| && charges[id].key == key && charges[id].token == token && charges[id].cfg == cfg
      modifies this, limiter
      ensures View() == Refuse(conf, old(View()), id, r, now) && same == r
    {
      limiter.ReleaseHit(key, token);
      ledger := LedgerStep(conf, ledger, Op.Release(key, token, now)).0;
      clock := now;
      charges := charges[id := charges[id].(outcome := Some(r))];
      same := CountRefusal(cfg, r);
    }

    method SettleLocally(conf: Key -> Config, key: Key, token: int, cfg: RateLimitConfig, ghost id: nat, t3: int, t4: int)
      returns (r: Result)
      requires CursorOk(View().lim) && Fits(conf, key, cfg)
      requires id < |charges| && charges[id].key == key && charges[id].token == token && charges[id].cfg == cfg
      modifies this, limiter
      ensures View() == SettleLocal(conf, old(View()), id, t3, t4) && CursorOk(View().lim)
      ensures id < |charges| && charges[id].outcome == Some(r)
    {
      var g := limiter.Hit(LocalGlobalKey(cfg), cfg.global, cfg.windowMs, t3, t4);
      ledger := LedgerStep(conf, ledger, Op.Hit(LocalGlobalKey(cfg), t3, t4)).0;
      clock := t4;
      assert (View(), g) == Apply(conf, old(View()), Op.Hit(LocalGlobalKey(cfg), t3, t4));
      if g.Ok? {
        charges := charges[id := charges[id].(globalHit := Some(t4), outcome := Some(Admit))];
        r := Admit;
      } else {
        r := Release(conf, key, token, id, GlobalRefusal(cfg, g.retryAfterSec), cfg, t4);
      }
    }

    method ChargeSync(conf: Key -> Config, key: Key, cfg: RateLimitConfig, t1: int, t2: int, t3: int, t4: int)
      returns (r: Result)
      requires CursorOk(View().lim) && Fits(conf, key, cfg)
      modifies this, limiter
      ensures View() == Next(conf, old(View()), Begin(key, cfg, false, t1, t2, t3, t4))
      ensures |charges| == |old(charges)| + 1 && charges[|charges| - 1].outcome == Some(r)
    {
      hide Apply, SettleLocal, Tally, Fits;
      var v := Reserve(conf, key, cfg, t1, t2);
      if v.Wait? {
        r := CountRefusal(cfg, PerIpRefusal(cfg, v.retryAfterSec));
        charges := charges + [Charge(key, cfg, t2, None, Some(r))];
      } else {
        charges := charges + [Charge(key, cfg, t2, None, None)];
        SettleLocalCharges(conf, View(), |charges| - 1, t3, t4);
        r := SettleLocally(conf, key, t2, cfg, |charges| - 1, t3, t4);
      }
    }

    /** `chargeShared` up to its await: an immediate refusal, or none and the reservation is held. */
    method BeginShared(conf: Key -> Config, key: Key, cfg: RateLimitConfig, t1: int, t2: int) returns (r: Option<Result>)
      requires CursorOk(View().lim) && Fits(conf, key, cfg)
      modifies this, limiter
      ensures View() == Next(conf, old(View()), Begin(key, cfg, true, t1, t2, t2, t2))
      ensures |charges| == |old(charges)| + 1 && charges[|charges| - 1].outcome == r
    {
      var v := Reserve(conf, key, cfg, t1, t2);
      if v.Wait? {
        var refusal := CountRefusal(cfg, PerIpRefusal(cfg, v.retryAfterSec));
        r := Some(refusal);
      } else {
        r := None;
      }
      charges := charges + [Charge(key, cfg, t2, None, r)];
    }

    /** `chargeShared` from its await on. */
    method ResumeShared(conf: Key -> Config, key: Key, token: int, cfg: RateLimitConfig, ghost id: nat,
                        reply: Reply, failOpen: bool, t3: int, t4: int) returns (r: Result)
      requires CursorOk(View().lim) && Fits(conf, key, cfg)
      requires id < |charges| && charges[id].key == key && charges[id].token == token && charges[id].cfg == cfg
      modifies this, limiter
      ensures View() == Next(conf, old(View()), Resume(id, reply, failOpen, t3, t4))
      ensures id < |charges| && charges[id].outcome == Some(r)
    {
      match reply {
        case Admitted =>
          clock := t3;
          charges := charges[id := charges[id].(globalHit := None, outcome := Some(Admit))];
          r := Admit;
        case Refused(retry) =>
          r := Release(conf, key, token, id, GlobalRefusal(cfg, retry), cfg, t3);
        case Unreachable =>
          if failOpen {
            r := SettleLocally(conf, key, token, cfg, id, t3, t4);
          } else {
            r := Release(conf, key, token, id, UnavailableRefusal(cfg), cfg, t3);
          }
      }
    }
  }
}
