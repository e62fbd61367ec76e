/**
 * The signed session cookie over its whole life: minted at sign-in, silently re-minted while its
 * login's stored version still matches, and revoked by bumping that version. One login, every cookie
 * ever minted for it, and a version store that may fail to answer. Signatures are ideal, so only a
 * minted cookie ever decodes. A resolve is cut where it awaits: decode, version lookup, decision.
 */
module SessionLifecycle {
  import opened Common

  const ACCESS_TTL_MS := 60 * 60_000
  const ACCESS_RENEW_WITHIN_MS := 30 * 60_000
  const SESSION_TTL_MS := 7 * 86_400_000

  /** What the cookie carries that decides its fate. */
  datatype Cookie = Cookie(sv: nat, exp: int, rexp: int)

  datatype Verdict = Valid | Revoked | Unknown

  function MintedCookie(sv: nat, now: int): Cookie {
    Cookie(sv, now + ACCESS_TTL_MS, now + SESSION_TTL_MS)
  }

  predicate Decodes(c: Cookie, now: int) {
    now <= c.rexp
  }

  /** The verdict on a cookie, given what the version store said, or that it could not say. */
  function Verify(dbConfigured: bool, c: Cookie, stored: Option<nat>): Verdict {
    if !dbConfigured then Unknown
    else if stored.None? then Unknown
    else if stored.value > c.sv then Revoked
    else Valid
  }

  datatype Decision = Expired | Active(renewed: Option<Cookie>)

  /** What a resolve decides once the lookup has ended. */
  function Decide(dbConfigured: bool, c: Cookie, verdict: Verdict, now: int): Decision {
    if verdict.Revoked? then
      Expired
    else if now >= c.exp && dbConfigured && !verdict.Valid? then
      Expired
    else if (!dbConfigured || verdict.Valid?) && now >= c.exp - ACCESS_RENEW_WITHIN_MS then
      Active(Some(MintedCookie(c.sv, now)))
    else
      Active(None)
  }

  // ---------------------------------------------------------------------------------------------
  // Every cookie of one login, over any run (the version store is configured)
  // ---------------------------------------------------------------------------------------------

  /** A cookie, when it was minted, and when the store last stood behind its version (if it ever did). */
  datatype Minted = Minted(cookie: Cookie, at: int, affirmedAt: Option<int>)

  datatype Flight =
    | Decoded(cookie: nat, begunAt: int)
    | Looked(cookie: nat, begunAt: int, verdict: Verdict, lookedAt: int)
    | Minting(sv: nat, affirmedAt: Option<int>)

  /** The answer one resolve gave. */
  datatype Answer = Answer(cookie: nat, begunAt: int, verdict: Verdict, lookedAt: int, at: int, active: bool)

  /** `bumps[v]` is when the stored version went from v to v+1, so |bumps| is the stored version. */
  datatype System = System(now: int, bumps: seq<int>, jar: seq<Minted>, flights: map<nat, Flight>, answers: seq<Answer>)

  datatype Event =
    | Begin(id: nat, cookie: nat, at: int)
    | Lookup(id: nat, answers: bool, at: int)
    | Finish(id: nat, writable: bool, at: int)
    | SignInRead(id: nat, answers: bool, at: int)
    | RevokeOthers(id: nat, at: int)
    | Mint(id: nat, at: int)
    | Logout(at: int)

  function Initial(now: int): System {
    System(now, [], [], map[], [])
  }

  predicate Possible(s: System, e: Event) {
    && s.now <= e.at
    && match e
       case Begin(id, cookie, _) => id !in s.flights && cookie < |s.jar|
       case Lookup(id, _, _) => id in s.flights && s.flights[id].Decoded? && s.flights[id].cookie < |s.jar|
       case Finish(id, _, _) => id in s.flights && s.flights[id].Looked? && s.flights[id].cookie < |s.jar|
       case SignInRead(id, _, _) => id !in s.flights
       case RevokeOthers(id, _) => id !in s.flights
       case Mint(id, _) => id in s.flights && s.flights[id].Minting?
       case Logout(_) => true
  }

  function Next(s: System, e: Event): System
    requires Possible(s, e)
  {
    var t := s.(now := e.at);
    match e
    case Begin(id, cookie, at) =>
      if Decodes(s.jar[cookie].cookie, at) then t.(flights := s.flights[id := Decoded(cookie, at)]) else t
    case Lookup(id, answers, at) =>
      var f := s.flights[id];
      var verdict := Verify(true, s.jar[f.cookie].cookie, if answers then Some(|s.bumps|) else None);
      t.(flights := s.flights[id := Looked(f.cookie, f.begunAt, verdict, at)])
    case Finish(id, writable, at) =>
      var f := s.flights[id];
      var decision := Decide(true, s.jar[f.cookie].cookie, f.verdict, at);
      var answer := Answer(f.cookie, f.begunAt, f.verdict, f.lookedAt, at, decision.Active?);
      var jar := if writable && decision.Active? && decision.renewed.Some?
        then s.jar + [Minted(decision.renewed.value, at, Some(f.lookedAt))] else s.jar;
      t.(jar := jar, flights := s.flights - {id}, answers := s.answers + [answer])
    case SignInRead(id, answers, at) =>
      t.(flights := s.flights[id := if answers then Minting(|s.bumps|, Some(at)) else Minting(0, None)])
    case RevokeOthers(id, at) =>
      t.(bumps := s.bumps + [at], flights := s.flights[id := Minting(|s.bumps| + 1, Some(at))])
    case Mint(id, at) =>
      var f := s.flights[id];
      t.(jar := s.jar + [Minted(MintedCookie(f.sv, at), at, f.affirmedAt)], flights := s.flights - {id})
    case Logout(at) =>
      t.(bumps := s.bumps + [at])
  }

  ghost predicate Runs(s: System, events: seq<Event>, t: System)
    decreases |events|
  {
    if events == [] then t == s
    else Possible(s, events[0]) && Runs(Next(s, events[0]), events[1..], t)
  }

  // ---------------------------------------------------------------------------------------------
  // What every step keeps
  // ---------------------------------------------------------------------------------------------

  /** Version `sv` has existed, and if the store stood behind it at some moment, that was no later than its revocation. */
  predicate Backed(bumps: seq<int>, sv: nat, affirmedAt: Option<int>) {
    && sv <= |bumps|
    && (affirmedAt.Some? && sv < |bumps| ==> affirmedAt.value <= bumps[sv])
  }

  predicate BumpsInOrder(s: System) {
    && (forall i, j :: 0 <= i < j < |s.bumps| ==> s.bumps[i] <= s.bumps[j])
    && (forall i :: 0 <= i < |s.bumps| ==> s.bumps[i] <= s.now)
  }

  predicate MintedOk(s: System, m: Minted) {
    && m.at <= s.now
    && m.cookie == MintedCookie(m.cookie.sv, m.at)
    && (m.affirmedAt.Some? ==> m.affirmedAt.value <= m.at)
    && Backed(s.bumps, m.cookie.sv, m.affirmedAt)
  }

  predicate JarOk(s: System) {
    forall i :: 0 <= i < |s.jar| ==> MintedOk(s, s.jar[i])
  }

  predicate FlightOk(s: System, f: Flight) {
    match f
    case Decoded(c, begunAt) =>
      c < |s.jar| && begunAt <= s.now && Decodes(s.jar[c].cookie, begunAt)
    case Looked(c, begunAt, verdict, lookedAt) =>
      && c < |s.jar| && begunAt <= lookedAt <= s.now && Decodes(s.jar[c].cookie, begunAt)
      && (verdict.Valid? ==> Backed(s.bumps, s.jar[c].cookie.sv, Some(lookedAt)))
    case Minting(sv, affirmedAt) =>
      Backed(s.bumps, sv, affirmedAt) && (affirmedAt.Some? ==> affirmedAt.value <= s.now)
  }

  predicate FlightsOk(s: System) {
    forall id :: id in s.flights ==> FlightOk(s, s.flights[id])
  }

  predicate AnswerOk(s: System, a: Answer) {
    && a.cookie < |s.jar|
    && a.begunAt <= a.lookedAt <= a.at <= s.now
    && Decodes(s.jar[a.cookie].cookie, a.begunAt)
    && (a.verdict.Valid? ==> Backed(s.bumps, s.jar[a.cookie].cookie.sv, Some(a.lookedAt)))
    && (a.active <==> Decide(true, s.jar[a.cookie].cookie, a.verdict, a.at).Active?)
  }

  predicate AnswersOk(s: System) {
    forall k :: 0 <= k < |s.answers| ==> AnswerOk(s, s.answers[k])
  }

  predicate Inv(s: System) {
    BumpsInOrder(s) && JarOk(s) && FlightsOk(s) && AnswersOk(s)
  }

  lemma BackedStill(bumps: seq<int>, at: int, sv: nat, affirmedAt: Option<int>)
    requires Backed(bumps, sv, affirmedAt) && (affirmedAt.Some? ==> affirmedAt.value <= at)
    ensures Backed(bumps + [at], sv, affirmedAt)
  {
  }

  /** Time passing, cookies being minted and versions being bumped undo nothing already established. */
  lemma EarlierStill(s: System, t: System)
    requires Inv(s) && s.now <= t.now
    requires t.bumps == s.bumps || t.bumps == s.bumps + [t.now]
    requires |s.jar| <= |t.jar| && t.jar[..|s.jar|] == s.jar
    ensures BumpsInOrder(t)
    ensures forall i :: 0 <= i < |s.jar| ==> t.jar[i] == s.jar[i] && MintedOk(t, s.jar[i])
    ensures forall id :: id in s.flights ==> FlightOk(t, s.flights[id])
    ensures forall k :: 0 <= k < |s.answers| ==> AnswerOk(t, s.answers[k])
  {
    hide Decodes, Decide, MintedCookie;
    forall i | 0 <= i < |s.jar|
      ensures t.jar[i] == s.jar[i] && MintedOk(t, s.jar[i])
    {
      assert t.jar[..|s.jar|][i] == s.jar[i];
      assert MintedOk(s, s.jar[i]);
    }
    forall id | id in s.flights
      ensures FlightOk(t, s.flights[id])
    {
      assert FlightOk(s, s.flights[id]);
    }
    forall k | 0 <= k < |s.answers|
      ensures AnswerOk(t, s.answers[k])
    {
      assert AnswerOk(s, s.answers[k]);
    }
  }

  lemma NextKeeps(s: System, e: Event)
    requires Inv(s) && Possible(s, e)
    ensures Inv(Next(s, e))
  {
    hide BumpsInOrder;
    var t := Next(s, e);
    EarlierStill(s, t);
    if e.Lookup? {
      assert FlightOk(s, s.flights[e.id]);
    } else if e.Finish? {
      FinishKeeps(s, e);
    } else if e.Mint? {
      assert FlightOk(s, s.flights[e.id]);
      EarlierStill(s, t);
      assert MintedOk(t, t.jar[|s.jar|]);
    }
  }

  lemma FinishKeeps(s: System, e: Event)
    requires Inv(s) && Possible(s, e) && e.Finish?
    ensures JarOk(Next(s, e)) && FlightsOk(Next(s, e)) && AnswersOk(Next(s, e))
  {
    hide BumpsInOrder;
    var t := Next(s, e);
    EarlierStill(s, t);
    var f := s.flights[e.id];
    assert FlightOk(s, f);
    assert AnswerOk(t, t.answers[|s.answers|]);
    if |t.jar| > |s.jar| {
      assert MintedOk(t, t.jar[|s.jar|]);
    }
  }

  lemma {:induction false} RunKeeps(s: System, events: seq<Event>, t: System)
    requires Inv(s) && Runs(s, events, t)
    ensures Inv(t)
    decreases |events|
  {
    if events != [] {
      NextKeeps(s, events[0]);
      RunKeeps(Next(s, events[0]), events[1..], t);
    }
  }

  lemma ReachableIsSound(start: int, events: seq<Event>, s: System)
    requires Runs(Initial(start), events, s)
    ensures Inv(s)
  {
    RunKeeps(Initial(start), events, s);
  }

  // ---------------------------------------------------------------------------------------------
  // Revocation
  // ---------------------------------------------------------------------------------------------

  /**
   * Whenever an answer was "active" for a cookie of version v or older, and v was revoked at bumps[v],
   * then either its lookup had answered no later than that, or the store did not answer and the cookie
   * was still inside the access window of a mint whose version the store had backed no later than that
   * (or had never backed: a sign-in that could not read the version).
   */
  lemma ActiveAfterRevocation(start: int, events: seq<Event>, s: System, k: nat, v: nat)
    requires Runs(Initial(start), events, s) && k < |s.answers| && v < |s.bumps|
    requires s.answers[k].active && s.answers[k].cookie < |s.jar| && s.jar[s.answers[k].cookie].cookie.sv <= v
    ensures
      var a := s.answers[k];
      var m := s.jar[a.cookie];
      || (a.verdict.Valid? && a.lookedAt <= s.bumps[v])
      || (a.verdict.Unknown? && a.at < m.at + ACCESS_TTL_MS && (m.affirmedAt.Some? ==> m.affirmedAt.value <= s.bumps[v]))
  {
    ReachableIsSound(start, events, s);
    var a := s.answers[k];
    var m := s.jar[a.cookie];
    assert AnswerOk(s, a) && MintedOk(s, m);
    assert s.bumps[m.cookie.sv] <= s.bumps[v];
  }

  /** A lookup that answers after the bump rejects the cookie, at once and for good. */
  lemma RejectedAtOnce(start: int, events: seq<Event>, s: System, k: nat, v: nat)
    requires Runs(Initial(start), events, s) && k < |s.answers| && v < |s.bumps|
    requires s.answers[k].cookie < |s.jar| && s.jar[s.answers[k].cookie].cookie.sv <= v
    requires !s.answers[k].verdict.Unknown? && s.answers[k].lookedAt > s.bumps[v]
    ensures !s.answers[k].active
  {
    if s.answers[k].active {
      ActiveAfterRevocation(start, events, s, k, v);
    }
  }

  /**
   * The backstop: a cookie of version v or older (a re-mint keeps its version) that was minted no later
   * than `delay` after the bump is not active at bumps[v] + delay + the access lifetime or later, even if
   * every lookup since then failed; the resolve itself is given the same `delay`.
   */
  lemma RevokedLineageDies(start: int, events: seq<Event>, s: System, k: nat, v: nat, delay: nat)
    requires Runs(Initial(start), events, s) && k < |s.answers| && v < |s.bumps|
    requires s.answers[k].at <= s.answers[k].lookedAt + delay
    requires s.answers[k].cookie < |s.jar| && s.jar[s.answers[k].cookie].cookie.sv <= v
    requires s.jar[s.answers[k].cookie].at <= s.bumps[v] + delay
    requires s.answers[k].at >= s.bumps[v] + delay + ACCESS_TTL_MS
    ensures !s.answers[k].active
  {
    if s.answers[k].active {
      ActiveAfterRevocation(start, events, s, k, v);
    }
  }

  /** A cookie whose version the store stood behind at most `delay` before the mint meets that condition. */
  lemma PromptMintsPrecedeTheBump(start: int, events: seq<Event>, s: System, i: nat, v: nat, delay: nat)
    requires Runs(Initial(start), events, s) && i < |s.jar| && v < |s.bumps| && s.jar[i].cookie.sv <= v
    requires s.jar[i].affirmedAt.Some? && s.jar[i].at <= s.jar[i].affirmedAt.value + delay
    ensures s.jar[i].at <= s.bumps[v] + delay
  {
    ReachableIsSound(start, events, s);
    assert MintedOk(s, s.jar[i]);
    assert s.bumps[s.jar[i].cookie.sv] <= s.bumps[v];
  }

  // ---- exactly which cookies outlive the bump ----------------------------------------------------

  /** An unfinished resolve of cookie `i` whose lookup came back valid. */
  predicate HoldsValid(s: System, id: nat, i: nat) {
    id in s.flights && s.flights[id].Looked? && s.flights[id].cookie == i && s.flights[id].verdict.Valid?
  }

  /** `t` gave an answer `s` had not, active for cookie `i`, at `from` or later. */
  predicate AnswersActive(s: System, t: System, i: nat, from: int) {
    exists k :: |s.answers| <= k < |t.answers| && t.answers[k].cookie == i && t.answers[k].active && t.answers[k].at >= from
  }

  ghost predicate CanOutlive(s: System, i: nat, from: int) {
    exists more, t :: Runs(s, more, t) && AnswersActive(s, t, i, from)
  }

  /** Every answer given since `s` for cookie `i` was not valid, or held by a resolve already looked up in `s`. */
  ghost predicate NoNewValid(s: System, t: System, i: nat) {
    && |s.answers| <= |t.answers| && |s.jar| <= |t.jar| && t.jar[..|s.jar|] == s.jar && s.now <= t.now
    && |s.bumps| <= |t.bumps| && t.bumps[..|s.bumps|] == s.bumps
    && (forall id :: HoldsValid(t, id, i) ==> HoldsValid(s, id, i))
    && (forall k :: |s.answers| <= k < |t.answers| && t.answers[k].cookie == i && t.answers[k].verdict.Valid? ==>
          exists id :: HoldsValid(s, id, i))
    && (forall k :: |s.answers| <= k < |t.answers| ==> s.now <= t.answers[k].at)
  }

  lemma NextMakesNoNewValid(s: System, t: System, e: Event, i: nat)
    requires NoNewValid(s, t, i) && Possible(t, e)
    requires i < |s.jar| && s.jar[i].cookie.sv < |s.bumps|
    ensures NoNewValid(s, Next(t, e), i)
  {
    var u := Next(t, e);
    assert t.jar[i] == t.jar[..|s.jar|][i];
    if e.Finish? && HoldsValid(t, e.id, i) {
      assert HoldsValid(s, e.id, i);
    }
    assert forall id :: HoldsValid(u, id, i) ==> HoldsValid(t, id, i);
    assert u.jar[..|s.jar|] == t.jar[..|s.jar|];
    assert u.bumps[..|s.bumps|] == t.bumps[..|s.bumps|];
  }

  lemma {:induction false} RunMakesNoNewValid(s: System, t: System, more: seq<Event>, u: System, i: nat)
    requires NoNewValid(s, t, i) && Runs(t, more, u)
    requires i < |s.jar| && s.jar[i].cookie.sv < |s.bumps|
    ensures NoNewValid(s, u, i)
    decreases |more|
  {
    hide NoNewValid, Next, Possible;
    if more != [] {
      NextMakesNoNewValid(s, t, more[0], i);
      RunMakesNoNewValid(s, Next(t, more[0]), more[1..], u, i);
    }
  }

  lemma OutlivingNeedsCause(start: int, events: seq<Event>, s: System, more: seq<Event>, t: System, i: nat, v: nat)
    requires Runs(Initial(start), events, s) && Runs(s, more, t)
    requires i < |s.jar| && v < |s.bumps| && s.jar[i].cookie.sv <= v
    requires AnswersActive(s, t, i, s.bumps[v] + ACCESS_TTL_MS)
    ensures (s.jar[i].at > s.bumps[v] && s.now < s.jar[i].at + ACCESS_TTL_MS) || exists id :: HoldsValid(s, id, i)
  {
    hide Runs, Next, Possible;
    RunsOn(Initial(start), events, s, more, t);
    RunMakesNoNewValid(s, s, more, t, i);
    var k :| |s.answers| <= k < |t.answers| && t.answers[k].cookie == i && t.answers[k].active
      && t.answers[k].at >= s.bumps[v] + ACCESS_TTL_MS;
    assert t.jar[i] == t.jar[..|s.jar|][i] && t.bumps[v] == t.bumps[..|s.bumps|][v];
    ActiveAfterRevocation(start, events + more, t, k, v);
  }

  /** A store that stays silent from here on lets the cookie through until its access window ends. */
  lemma SilenceOutlives(s: System, i: nat, from: int)
    requires Inv(s) && i < |s.jar| && s.now < s.jar[i].at + ACCESS_TTL_MS && from < s.jar[i].at + ACCESS_TTL_MS
    ensures CanOutlive(s, i, from)
  {
    assert MintedOk(s, s.jar[i]);
    var at := if s.now < from then from else s.now;
    var id := FreshId(s.flights);
    hide Runs;
    var s1 := Next(s, Begin(id, i, at));
    var s2 := Next(s1, Lookup(id, false, at));
    var t := Next(s2, Finish(id, false, at));
    RunsNothing(t);
    RunsCons(s2, Finish(id, false, at), [], t);
    RunsCons(s1, Lookup(id, false, at), [Finish(id, false, at)] + [], t);
    RunsCons(s, Begin(id, i, at), [Lookup(id, false, at)] + ([Finish(id, false, at)] + []), t);
    assert t.answers[|s.answers|].active && t.answers[|s.answers|].cookie == i;
    assert AnswersActive(s, t, i, from);
  }

  lemma FreshId(flights: map<nat, Flight>) returns (id: nat)
    ensures id !in flights
  {
    id := Above(flights.Keys);
  }

  lemma {:induction false} Above(ids: set<nat>) returns (n: nat)
    ensures forall x :: x in ids ==> x < n
  {
    n := 0;
    if ids != {} {
      var x :| x in ids;
      var m := Above(ids - {x});
      n := if m > x then m else x + 1;
      assert forall y :: y in ids ==> y == x || y in ids - {x};
    }
  }

  /** A resolve that already holds a valid lookup answers active whenever it finishes. */
  lemma ValidLookupOutlives(s: System, id: nat, i: nat, from: int)
    requires Inv(s) && HoldsValid(s, id, i)
    ensures CanOutlive(s, i, from)
  {
    assert FlightOk(s, s.flights[id]);
    var at := if s.now < from then from else s.now;
    hide Runs;
    var t := Next(s, Finish(id, false, at));
    RunsNothing(t);
    RunsCons(s, Finish(id, false, at), [], t);
    assert t.answers[|s.answers|].active && t.answers[|s.answers|].cookie == i;
    assert AnswersActive(s, t, i, from);
  }

  /**
   * Exactly which cookies can still be active an access lifetime after the bump that revoked them, from
   * any reachable state and over every continuation: one minted after that bump and still inside its own
   * access window, or one with an unfinished resolve whose lookup came back valid, as it can only have
   * done no later than the bump.
   */
  lemma OutlivesTheBumpIff(start: int, events: seq<Event>, s: System, i: nat, v: nat)
    requires Runs(Initial(start), events, s)
    requires i < |s.jar| && v < |s.bumps| && s.jar[i].cookie.sv <= v
    ensures CanOutlive(s, i, s.bumps[v] + ACCESS_TTL_MS) <==>
      || (s.jar[i].at > s.bumps[v] && s.now < s.jar[i].at + ACCESS_TTL_MS)
      || exists id :: HoldsValid(s, id, i)
    ensures forall id :: HoldsValid(s, id, i) ==> s.flights[id].lookedAt <= s.bumps[v]
  {
    ReachableIsSound(start, events, s);
    var from := s.bumps[v] + ACCESS_TTL_MS;
    forall id | HoldsValid(s, id, i)
      ensures s.flights[id].lookedAt <= s.bumps[v] && CanOutlive(s, i, from)
    {
      assert FlightOk(s, s.flights[id]);
      assert s.bumps[s.jar[i].cookie.sv] <= s.bumps[v];
      ValidLookupOutlives(s, id, i, from);
    }
    if s.jar[i].at > s.bumps[v] && s.now < s.jar[i].at + ACCESS_TTL_MS {
      SilenceOutlives(s, i, from);
    }
    forall more, t | Runs(s, more, t) && AnswersActive(s, t, i, from)
      ensures (s.jar[i].at > s.bumps[v] && s.now < s.jar[i].at + ACCESS_TTL_MS) || exists id :: HoldsValid(s, id, i)
    {
      OutlivingNeedsCause(start, events, s, more, t, i, v);
    }
  }

  /** A resolve whose lookup answered just before a logout re-mints just after it, and outlives the window. */
  lemma StraddlingMintOutlives() returns (events: seq<Event>, s: System)
    ensures Runs(Initial(0), events, s)
    ensures |s.bumps| == 1 && |s.answers| == 2 && |s.jar| == 2
    ensures s.answers[1].active && s.answers[1].at >= s.bumps[0] + ACCESS_TTL_MS
    ensures s.answers[1].cookie < |s.jar| && s.jar[s.answers[1].cookie].cookie.sv == 0
  {
    hide Runs;
    var renewAt := ACCESS_RENEW_WITHIN_MS;
    var late := renewAt + 1 + ACCESS_TTL_MS;
    var first, tail := StraddlingStart(renewAt);
    var s7 := Next(tail, Begin(2, 1, late));
    var s8 := Next(s7, Lookup(2, false, late));
    s := Next(s8, Finish(2, true, late));
    RunsNothing(s);
    RunsCons(s8, Finish(2, true, late), [], s);
    assert [Finish(2, true, late)] + [] == [Finish(2, true, late)];
    RunsCons(s7, Lookup(2, false, late), [Finish(2, true, late)], s);
    RunsCons(tail, Begin(2, 1, late), [Lookup(2, false, late)] + [Finish(2, true, late)], s);
    var second := [Begin(2, 1, late)] + ([Lookup(2, false, late)] + [Finish(2, true, late)]);
    RunsOn(Initial(0), first, tail, second, s);
    events := first + second;
  }

  lemma StraddlingStart(renewAt: int) returns (events: seq<Event>, s: System)
    requires renewAt == ACCESS_RENEW_WITHIN_MS
    ensures Runs(Initial(0), events, s)
    ensures s.now == renewAt + 2 && s.bumps == [renewAt + 1] && s.flights == map[] && |s.answers| == 1
    ensures |s.jar| == 2 && s.jar[1] == Minted(MintedCookie(0, renewAt + 2), renewAt + 2, Some(renewAt))
  {
    hide Runs;
    var s0 := Initial(0);
    var s1 := Next(s0, SignInRead(0, true, 0));
    var s2 := Next(s1, Mint(0, 0));
    var s3 := Next(s2, Begin(1, 0, renewAt));
    var s4 := Next(s3, Lookup(1, true, renewAt));
    var s5 := Next(s4, Logout(renewAt + 1));
    s := Next(s5, Finish(1, true, renewAt + 2));
    events := [Finish(1, true, renewAt + 2)];
    RunsNothing(s);
    RunsCons(s5, Finish(1, true, renewAt + 2), [], s);
    assert events + [] == events;
    RunsCons(s4, Logout(renewAt + 1), events, s);
    events := [Logout(renewAt + 1)] + events;
    RunsCons(s3, Lookup(1, true, renewAt), events, s);
    events := [Lookup(1, true, renewAt)] + events;
    RunsCons(s2, Begin(1, 0, renewAt), events, s);
    events := [Begin(1, 0, renewAt)] + events;
    RunsCons(s1, Mint(0, 0), events, s);
    events := [Mint(0, 0)] + events;
    RunsCons(s0, SignInRead(0, true, 0), events, s);
    events := [SignInRead(0, true, 0)] + events;
  }

  lemma RunsNothing(s: System)
    ensures Runs(s, [], s)
  {
  }

  lemma RunsCons(s: System, e: Event, events: seq<Event>, t: System)
    requires Possible(s, e) && Runs(Next(s, e), events, t)
    ensures Runs(s, [e] + events, t)
  {
    assert ([e] + events)[1..] == events;
  }

  lemma {:induction false} RunsOn(s: System, first: seq<Event>, t: System, second: seq<Event>, u: System)
    requires Runs(s, first, t) && Runs(t, second, u)
    ensures Runs(s, first + second, u)
    decreases |first|
  {
    if first == [] {
      assert first + second == second;
    } else {
      RunsOn(Next(s, first[0]), first[1..], t, second, u);
      assert (first + second)[1..] == first[1..] + second;
    }
  }

  /** No answer is active for a cookie that sat idle past its horizon before the request began. */
  lemma IdleSessionsLapse(start: int, events: seq<Event>, s: System, k: nat)
    requires Runs(Initial(start), events, s) && k < |s.answers|
    ensures s.answers[k].cookie < |s.jar|
    ensures s.answers[k].begunAt <= s.jar[s.answers[k].cookie].at + SESSION_TTL_MS
  {
    ReachableIsSound(start, events, s);
    assert AnswerOk(s, s.answers[k]);
  }

  /**
   * Exactly who is signed in, by when the cookie was minted and what the store said: with an answer, a
   * cookie no older than the stored version, for the whole inactivity horizon; with no answer, only
   * inside the access window; with no store configured, for the whole horizon.
   */
  lemma SignedInIff(sv: nat, mintedAt: int, stored: Option<nat>, now: int)
    ensures
      var c := MintedCookie(sv, mintedAt);
      var unanswered := Decodes(c, now) && Decide(true, c, Verify(true, c, None), now).Active?;
      var stateless := Decodes(c, now) && Decide(false, c, Verify(false, c, stored), now).Active?;
      var answered := Decodes(c, now) && Decide(true, c, Verify(true, c, stored), now).Active?;
      && (stored.Some? ==> (answered <==> now <= mintedAt + SESSION_TTL_MS && stored.value <= sv))
      && (unanswered <==> now < mintedAt + ACCESS_TTL_MS)
      && (stateless <==> now <= mintedAt + SESSION_TTL_MS)
  {
  }

  /** A cookie the store affirms leaves with more than half its access window ahead, at the version it came with. */
  lemma AffirmedIsRefreshed(c: Cookie, now: int)
    ensures
      var d := Decide(true, c, Verify(true, c, Some(c.sv)), now);
      && d.Active?
      && (if d.renewed.Some? then d.renewed.value else c).exp > now + ACCESS_RENEW_WITHIN_MS
      && (d.renewed.Some? ==> d.renewed.value.sv == c.sv && c.exp <= now + ACCESS_RENEW_WITHIN_MS)
  {
  }

  lemma {:induction false} NothingIsForgotten(s: System, events: seq<Event>, t: System)
    requires Runs(s, events, t)
    ensures |s.bumps| <= |t.bumps| && |s.jar| <= |t.jar|
    ensures forall i :: 0 <= i < |s.jar| ==> t.jar[i] == s.jar[i]
    decreases |events|
  {
    hide Verify, Decide, Decodes, MintedCookie;
    if events != [] {
      NothingIsForgotten(Next(s, events[0]), events[1..], t);
    }
  }

  /**
   * Signing out, here or everywhere else, reaches every cookie there was: over any run before it and any
   * after, the store that answers rejects each of them from then on.
   */
  lemma BumpRejectsEveryCookie(start: int, events: seq<Event>, s: System, e: Event, more: seq<Event>, t: System, i: nat)
    requires Runs(Initial(start), events, s) && Possible(s, e) && (e.Logout? || e.RevokeOthers?) && i < |s.jar|
    requires Runs(Next(s, e), more, t)
    ensures i < |t.jar| && t.jar[i] == s.jar[i] && Verify(true, t.jar[i].cookie, Some(|t.bumps|)) == Revoked
  {
    ReachableIsSound(start, events, s);
    assert MintedOk(s, s.jar[i]);
    NothingIsForgotten(Next(s, e), more, t);
    assert Next(s, e).jar[i] == s.jar[i];
  }

  /**
   * What a sign-in's mint is worth, from every state: with the version read, or after revoking
   * the other sessions, the store affirms the new cookie; with the read failed it affirms it only if
   * nothing was ever revoked. It opens the session for the whole horizon and no other cookie changes.
   */
  lemma MintIsHonoured(s: System, e: Event, at: int)
    requires Possible(s, e) && (e.SignInRead? || e.RevokeOthers?) && e.at <= at
    ensures
      Possible(Next(s, e), Mint(e.id, at)) &&
      var t := Next(Next(s, e), Mint(e.id, at));
      && |t.jar| == |s.jar| + 1 && t.jar[..|s.jar|] == s.jar && t.flights == s.flights - {e.id} && t.answers == s.answers
      && t.bumps == (if e.RevokeOthers? then s.bumps + [e.at] else s.bumps)
      && var c := t.jar[|s.jar|].cookie;
         && c == MintedCookie(c.sv, at) && (forall now :: Decodes(c, now) <==> now <= at + SESSION_TTL_MS)
         && (Verify(true, c, Some(|t.bumps|)) == Valid <==> e.RevokeOthers? || e.answers || s.bumps == [])
  {
  }

  /**
   * A resolve with nothing in between, from every reachable state: past its horizon a cookie is not looked
   * up; otherwise its answer is active exactly when the store answers and has not moved past its version,
   * or does not answer and the access window is open; and a new cookie of that version is minted exactly
   * when the store affirmed an old one near its end and the response may set it.
   */
  lemma ResolveAlone(start: int, events: seq<Event>, s: System, id: nat, i: nat, answers: bool, writable: bool, at: int)
    requires Runs(Initial(start), events, s) && s.now <= at && id !in s.flights && i < |s.jar|
    ensures
      Possible(s, Begin(id, i, at)) &&
      var begun := Next(s, Begin(id, i, at));
      var m := s.jar[i];
      && (at > m.at + SESSION_TTL_MS ==> begun == s.(now := at))
      && (at <= m.at + SESSION_TTL_MS ==>
            Possible(begun, Lookup(id, answers, at)) && Possible(Next(begun, Lookup(id, answers, at)), Finish(id, writable, at)) &&
            var t := Next(Next(begun, Lookup(id, answers, at)), Finish(id, writable, at));
            var active := if answers then |s.bumps| <= m.cookie.sv else at < m.at + ACCESS_TTL_MS;
            var due := answers && active && writable && at >= m.at + ACCESS_TTL_MS - ACCESS_RENEW_WITHIN_MS;
            && |t.answers| == |s.answers| + 1 && t.answers[..|s.answers|] == s.answers
            && t.answers[|s.answers|].cookie == i && t.answers[|s.answers|].active == active
            && t.jar == (if due then s.jar + [Minted(MintedCookie(m.cookie.sv, at), at, Some(at))] else s.jar)
            && t.bumps == s.bumps && t.flights == s.flights)
  {
    ReachableIsSound(start, events, s);
    assert MintedOk(s, s.jar[i]);
  }

  // ---------------------------------------------------------------------------------------------
  // The version store and the browser's cookie
  // ---------------------------------------------------------------------------------------------

  class RevocationStore {
    const configured: bool
    var versions: map<string, nat>

    /** Without a database nothing was ever revoked. */
    ghost function VersionOf(login: string): nat
      reads this
    {
      if configured && Lower(login) in versions then versions[Lower(login)] else 0
    }

    constructor (configured: bool)
      ensures versions == map[] && this.configured == configured
    {
      this.configured := configured;
      versions := map[];
    }

    method GetSessionVersion(login: string) returns (version: nat)
      ensures version == VersionOf(login)
    {
      if !configured {
        return 0;
      }
      var key := Lower(login);
      version := if key in versions then versions[key] else 0;
    }

    /** The login's version moves up by one, whatever its letter case; every other login's stays. */
    method BumpSessionVersion(login: string) returns (version: nat)
      modifies this
      ensures version == VersionOf(login)
      ensures configured ==> version == old(VersionOf(login)) + 1
      ensures forall other :: Lower(other) != Lower(login) ==> VersionOf(other) == old(VersionOf(other))
      ensures forall other :: Lower(other) == Lower(login) ==> VersionOf(other) == version
      ensures !configured ==> versions == old(versions)
    {
      if !configured {
        return 0;
      }
      var key := Lower(login);
      version := if key in versions then versions[key] + 1 else 1;
      versions := versions[key := version];
    }
  }

  /** No cookie at all, one whose signature or payload does not check out, or a minted one. */
  datatype Raw = Absent | Forged | Signed(cookie: Cookie)

  datatype Status = NoSession | ExpiredSession | ActiveSession(cookie: Cookie, expiresAt: int, needsRefresh: bool)

  class Browser {
    var raw: Raw
    const writable: bool

    constructor (writable: bool)
      ensures raw == Absent && this.writable == writable
    {
      raw := Absent;
      this.writable := writable;
    }

    /** `stored` is what the lookup came back with; the clock may have moved on between decode and decision. */
    method GetSessionState(dbConfigured: bool, decodeAt: int, stored: Option<nat>, now: int) returns (status: Status)
      modifies this
      ensures status.NoSession? <==> old(raw).Absent?
      ensures status.ActiveSession? <==>
        && old(raw).Signed? && Decodes(old(raw).cookie, decodeAt)
        && Decide(dbConfigured, old(raw).cookie, Verify(dbConfigured, old(raw).cookie, stored), now).Active?
      ensures dbConfigured && old(raw).Signed? && stored.Some? && stored.value > old(raw).cookie.sv ==> !status.ActiveSession?
      ensures status.ActiveSession? ==>
        var due := (!dbConfigured || stored.Some?) && now >= old(raw).cookie.exp - ACCESS_RENEW_WITHIN_MS;
        && status.cookie == (if writable && due then MintedCookie(old(raw).cookie.sv, now) else old(raw).cookie)
        && status.needsRefresh == (due && !writable)
        && status.expiresAt == status.cookie.rexp
      ensures raw == if status.ActiveSession? then Signed(status.cookie) else old(raw)
      ensures dbConfigured && stored.None? && status.ActiveSession? ==> now < old(raw).cookie.exp && raw == old(raw)
    {
      if raw.Absent? {
        return NoSession;
      }
      if raw.Forged? || !Decodes(raw.cookie, decodeAt) {
        return ExpiredSession;
      }
      var session := raw.cookie;
      var verdict := Verify(dbConfigured, session, stored);
      if verdict.Revoked? {
        return ExpiredSession;
      }
      if now >= session.exp && dbConfigured && !verdict.Valid? {
        return ExpiredSession;
      }
      var canRefresh := !dbConfigured || verdict.Valid?;
      if canRefresh && now >= session.exp - ACCESS_RENEW_WITHIN_MS {
        var renewed := MintedCookie(session.sv, now);
        if writable {
          raw := Signed(renewed);
          return ActiveSession(renewed, renewed.rexp, false);
        }
        return ActiveSession(session, session.rexp, true);
      }
      return ActiveSession(session, session.rexp, false);
    }

    /**
     * With a database, afterwards the store confirms this browser's cookie and rejects every cookie of the
     * versions before; without one the cookie is only refreshed, and the caller is told so.
     */
    method RevokeOtherSessions(store: RevocationStore, login: string, now: int) returns (revoked: bool)
      modifies this, store
      ensures revoked == store.configured
      ensures raw == Signed(MintedCookie(store.VersionOf(login), now))
      ensures revoked ==> Verify(true, raw.cookie, Some(store.VersionOf(login))) == Valid
      ensures revoked ==> forall c: Cookie :: c.sv <= old(store.VersionOf(login)) ==>
        Verify(true, c, Some(store.VersionOf(login))) == Revoked
      ensures !revoked ==> store.versions == old(store.versions) && raw.cookie.sv == 0
      ensures forall other :: Lower(other) != Lower(login) ==> store.VersionOf(other) == old(store.VersionOf(other))
    {
      var newVersion := store.BumpSessionVersion(login);
      raw := Signed(MintedCookie(newVersion, now));
      revoked := store.configured;
    }
  }
}
