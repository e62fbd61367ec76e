/**
 * Fitting a session into a cookie: the payload is shed in a fixed order until its encoded size is under
 * the budget. The encoding is not modelled; `size` is any function of what is kept.
 */
module SessionBudget {
  import opened Common
  import opened StableSort

  const MAX_SESSION_COOKIE_BYTES := 3800
  const MAX_SESSION_SUGGESTED_ORGS := 8

  datatype Installation = Installation(id: int, login: string)

  /** What varies in size; everything else in the session is fixed by the user and the clock. */
  datatype Payload = Payload(installations: seq<Installation>, suggestedOrgs: seq<string>, seededOrg: Option<string>)

  predicate Over(size: Payload -> nat, p: Payload) {
    size(p) > MAX_SESSION_COOKIE_BYTES
  }

  /** Still too big with only the first `k` installations kept. */
  predicate OverWith(size: Payload -> nat, orgs: seq<string>, seeded: Option<string>, sorted: seq<Installation>, k: nat) {
    k <= |sorted| && size(Payload(sorted[..k], orgs, seeded)) > 3800
  }

  lemma StillOver(size: Payload -> nat, orgs: seq<string>, seeded: Option<string>, sorted: seq<Installation>, k: nat)
    requires k <= |sorted| && Over(size, Payload(sorted[..k], orgs, seeded))
    ensures OverWith(size, orgs, seeded, sorted, k)
  {
  }

  function InstallationId(i: Installation): int {
    i.id
  }

  function ById(installations: seq<Installation>): seq<Installation> {
    SortBy(installations, InstallationId)
  }

  function Capped(suggested: seq<string>): (kept: seq<string>)
    ensures kept <= suggested && |kept| == if |suggested| < 8 then |suggested| else 8
  {
    if |suggested| > MAX_SESSION_SUGGESTED_ORGS then suggested[..MAX_SESSION_SUGGESTED_ORGS] else suggested
  }

  /**
   * The kept installations are the longest prefix, by id, that fits: those with the lowest ids stay and
   * `dropped` is the rest. The suggestions, eight at most, and then the seeded org go before any
   * installation does, and each only when what remained was still too big.
   */
  method BuildSession(installations: seq<Installation>, suggested: seq<string>, seeded: Option<string>, size: Payload -> nat)
    returns (p: Payload, ghost dropped: seq<Installation>)
    ensures KeepsLowest(installations, p.installations, dropped)
    ensures p.installations <= ById(installations)
    ensures size(p) <= 3800 || p == Payload([], [], None)
    ensures forall k :: |p.installations| < k <= |installations| ==>
      OverWith(size, p.suggestedOrgs, p.seededOrg, ById(installations), k)
    ensures p.suggestedOrgs == if size(Payload(ById(installations), Capped(suggested), seeded)) > 3800 then [] else Capped(suggested)
    ensures p.seededOrg == if size(Payload(ById(installations), p.suggestedOrgs, seeded)) > 3800 then None else seeded
    ensures |p.installations| < |installations| ==> p.suggestedOrgs == [] && p.seededOrg == None
  {
    hide ById, Capped, KeepsLowest, OverWith;
    SameSize(installations);
    var sorted := ById(installations);
    var kept, orgs, seed := sorted, Capped(suggested), seeded;
    if Over(size, Payload(kept, orgs, seed)) {
      orgs := [];
    }
    if Over(size, Payload(kept, orgs, seed)) {
      seed := None;
    }
    assert sorted[..|sorted|] == sorted;
    while |kept| > 0 && Over(size, Payload(kept, orgs, seed))
      invariant |kept| <= |sorted| && kept == sorted[..|kept|]
      invariant |kept| < |sorted| ==> orgs == [] && seed == None
      invariant forall k :: |kept| < k <= |sorted| ==> OverWith(size, orgs, seed, sorted, k)
      decreases |kept|
    {
      StillOver(size, orgs, seed, sorted, |kept|);
      assert kept[..|kept| - 1] == sorted[..|kept| - 1];
      kept := kept[..|kept| - 1];
    }
    LowestIdsStay(installations, |kept|);
    p, dropped := Payload(kept, orgs, seed), sorted[|kept|..];
  }

  lemma SameSize(installations: seq<Installation>)
    ensures |ById(installations)| == |installations|
  {
    KeepsAll(installations, InstallationId);
  }

  /** `kept` and `dropped` are all of them, and no dropped one has a lower id than a kept one. */
  ghost predicate KeepsLowest(all: seq<Installation>, kept: seq<Installation>, dropped: seq<Installation>) {
    && multiset(kept + dropped) == multiset(all)
    && (forall x, y :: x in kept && y in dropped ==> x.id <= y.id)
    && (forall i, j :: 0 <= i < j < |kept| ==> kept[i].id <= kept[j].id)
  }

  lemma LowestIdsStay(installations: seq<Installation>, n: nat)
    requires n <= |ById(installations)|
    ensures KeepsLowest(installations, ById(installations)[..n], ById(installations)[n..])
  {
    hide SortBy;
    KeepsAll(installations, InstallationId);
    SortSorts(installations, InstallationId);
    SplitKeepsLowest(installations, ById(installations), n);
  }

  lemma SplitKeepsLowest(all: seq<Installation>, sorted: seq<Installation>, n: nat)
    requires n <= |sorted| && multiset(sorted) == multiset(all) && SortedBy(sorted, InstallationId)
    ensures KeepsLowest(all, sorted[..n], sorted[n..])
  {
    assert sorted[..n] + sorted[n..] == sorted;
    forall x, y | x in sorted[..n] && y in sorted[n..]
      ensures x.id <= y.id
    {
      var i :| 0 <= i < n && sorted[i] == x;
      var j :| n <= j < |sorted| && sorted[j] == y;
      assert InstallationId(sorted[i]) <= InstallationId(sorted[j]);
    }
    forall i, j | 0 <= i < j < n
      ensures sorted[..n][i].id <= sorted[..n][j].id
    {
      assert InstallationId(sorted[i]) <= InstallationId(sorted[j]);
    }
  }

  /**
   * The same organisations survive every sign-in: when no two installations share an id, the order the
   * list arrived in has no effect on what is kept.
   */
  lemma ArrivalOrderIsForgotten(a: seq<Installation>, b: seq<Installation>)
    requires multiset(a) == multiset(b)
    requires forall i, j :: 0 <= i < j < |a| ==> a[i].id != a[j].id
    ensures ById(a) == ById(b)
  {
    assert forall i, j :: 0 <= i < j < |a| ==> InstallationId(a[i]) != InstallationId(a[j]);
    SortForgetsOrder(a, b, InstallationId);
  }
}
