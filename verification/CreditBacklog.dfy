/**
 * Repositories owed a scan because their newest rescore job was skipped for want of credits, and the
 * plan of a one-click resume. Instants are ordered by number; a repository is one whatever its case.
 */
module CreditBacklog {
  import opened Common
  import opened StableSort

  datatype Job = Job(repoFullName: string, lane: string, reason: string, state: string, error: Option<string>, at: int)

  datatype Via = Cadence | Push | Import | Manual

  datatype Owed = Owed(repo: string, skippedAt: int, via: Via)

  /** A repository's last scan as the caller lists it; absent times are listed as None. */
  datatype LastScan = LastScan(repo: string, at: Option<int>)

  const CREDIT_SKIP := "insufficient credits"

  function ViaOf(reason: string): Via {
    if reason == "cadence" then Cadence
    else if "webhook:" <= reason then Push
    else if reason == "import" then Import
    else Manual
  }

  // ---------------------------------------------------------------------------------------------
  // What is owed, stated on the job list alone
  // ---------------------------------------------------------------------------------------------

  predicate Counts(j: Job, key: string) {
    j.lane == "rescore" && Lower(j.repoFullName) == key
  }

  /** Job `i` is the newest rescore job of its repository; of equally new ones, the first listed. */
  predicate IsNewest(jobs: seq<Job>, i: nat) {
    && i < |jobs| && jobs[i].lane == "rescore"
    && forall k: nat :: k < |jobs| && Counts(jobs[k], Lower(jobs[i].repoFullName)) ==>
         jobs[k].at <= jobs[i].at && (jobs[k].at == jobs[i].at ==> i <= k)
  }

  /** The last listing of the repository decides, so the case-folded map keeps the later of two spellings. */
  function ScannedAt(scans: seq<LastScan>, key: string): Option<int> {
    if scans == [] then None
    else if Lower(scans[|scans| - 1].repo) == key then scans[|scans| - 1].at
    else ScannedAt(scans[..|scans| - 1], key)
  }

  predicate IsOwed(j: Job, scans: seq<LastScan>) {
    && j.state == "skipped" && j.error == Some(CREDIT_SKIP)
    && (var last := ScannedAt(scans, Lower(j.repoFullName)); last.Some? ==> last.value <= j.at)
  }

  /** Listing `i` is the one that speaks for the repository: the last under its name, whatever the case. */
  predicate SpeaksFor(scans: seq<LastScan>, i: nat, repo: string) {
    && i < |scans| && Lower(scans[i].repo) == Lower(repo)
    && forall k :: i < k < |scans| ==> Lower(scans[k].repo) != Lower(repo)
  }

  lemma {:induction false} LastListingSpeaks(scans: seq<LastScan>, repo: string)
    ensures forall i: nat :: SpeaksFor(scans, i, repo) ==> ScannedAt(scans, Lower(repo)) == scans[i].at
    ensures (forall i :: 0 <= i < |scans| ==> Lower(scans[i].repo) != Lower(repo)) ==> ScannedAt(scans, Lower(repo)).None?
    ensures ScannedAt(scans, Lower(repo)).Some? ==> exists i: nat :: SpeaksFor(scans, i, repo)
  {
    hide Lower;
    if scans != [] {
      var front := scans[..|scans| - 1];
      LastListingSpeaks(front, repo);
      if Lower(scans[|scans| - 1].repo) == Lower(repo) {
        assert SpeaksFor(scans, |scans| - 1, repo);
      } else {
        assert forall i :: 0 <= i < |front| ==> front[i] == scans[i];
        assert forall i: nat :: SpeaksFor(scans, i, repo) ==> SpeaksFor(front, i, repo);
        assert forall i: nat :: SpeaksFor(front, i, repo) ==> SpeaksFor(scans, i, repo);
      }
    }
  }

  /**
   * A job is owed exactly when it was skipped for want of credits and the listing that speaks for its
   * repository, if there is one and it gives a time, gives none later than the job's.
   */
  lemma OwedIff(j: Job, scans: seq<LastScan>)
    ensures IsOwed(j, scans) <==>
      && j.state == "skipped" && j.error == Some("insufficient credits")
      && forall i: nat :: SpeaksFor(scans, i, j.repoFullName) && scans[i].at.Some? ==> scans[i].at.value <= j.at
  {
    LastListingSpeaks(scans, j.repoFullName);
  }

  function OwedFor(j: Job): Owed {
    Owed(j.repoFullName, j.at, ViaOf(j.reason))
  }

  /** An entry names its job's repository and time, and how the scan had come about: by hand unless the reason says. */
  lemma OwedSays(j: Job)
    ensures
      var x := OwedFor(j);
      && x.repo == j.repoFullName && x.skippedAt == j.at
      && (x.via == Cadence <==> j.reason == "cadence") && (x.via == Import <==> j.reason == "import")
      && (forall hook :: j.reason == "webhook:" + hook ==> x.via == Push)
      && (x.via == Push ==> exists hook :: j.reason == "webhook:" + hook)
  {
    if "webhook:" <= j.reason {
      assert j.reason == "webhook:" + j.reason[8..];
    }
    assert forall hook: string :: "webhook:" <= "webhook:" + hook;
  }

  /** Where a repository's first rescore job stands in the list, which is where its map entry stands. */
  function FirstSeen(jobs: seq<Job>, key: string): (n: nat)
    ensures n <= |jobs|
  {
    if jobs == [] || Counts(jobs[0], key) then 0 else 1 + FirstSeen(jobs[1..], key)
  }

  function SeenRank(jobs: seq<Job>): Owed -> int {
    (x: Owed) => FirstSeen(jobs, Lower(x.repo))
  }

  function SkippedAt(x: Owed): int {
    x.skippedAt
  }

  function OldestFirst(owed: seq<Owed>): seq<Owed> {
    SortBy(owed, SkippedAt)
  }

  // ---------------------------------------------------------------------------------------------
  // The fold
  // ---------------------------------------------------------------------------------------------

  /** A map in insertion order: its keys in order, and for each the job it holds, by its place in the list. */
  datatype Newest = Newest(order: seq<string>, place: map<string, nat>)

  /** After the first `n` jobs: one entry per repository seen, in order of first sight, holding its newest job. */
  ghost predicate Folded(jobs: seq<Job>, n: nat, m: Newest) {
    && n <= |jobs|
    && (forall k :: k in m.order <==> k in m.place)
    && (forall p, q :: 0 <= p < q < |m.order| ==> FirstSeen(jobs, m.order[p]) < FirstSeen(jobs, m.order[q]))
    && (forall k :: k in m.place ==> m.place[k] < n && FirstSeen(jobs, k) < n && Holds(jobs, n, k, m.place[k]))
    && (forall i: nat :: i < n && jobs[i].lane == "rescore" ==> Lower(jobs[i].repoFullName) in m.place)
  }

  predicate Holds(jobs: seq<Job>, n: nat, key: string, i: nat)
    requires i < |jobs| && n <= |jobs|
  {
    && Counts(jobs[i], key)
    && forall k: nat :: k < n && Counts(jobs[k], key) ==> jobs[k].at <= jobs[i].at && (jobs[k].at == jobs[i].at ==> i <= k)
  }

  lemma {:induction false} FirstSeenIs(jobs: seq<Job>, key: string, i: nat)
    requires i < |jobs| && Counts(jobs[i], key)
    ensures FirstSeen(jobs, key) <= i && Counts(jobs[FirstSeen(jobs, key)], key)
  {
    if !Counts(jobs[0], key) {
      FirstSeenIs(jobs[1..], key, i - 1);
    }
  }

  lemma {:induction false} FirstSeenHere(jobs: seq<Job>, key: string, i: nat)
    requires i < |jobs| && Counts(jobs[i], key)
    requires forall k: nat :: k < i ==> !Counts(jobs[k], key)
    ensures FirstSeen(jobs, key) == i
  {
    if i > 0 {
      assert !Counts(jobs[0], key);
      FirstSeenHere(jobs[1..], key, i - 1);
    }
  }

  method NewestByRepo(jobs: seq<Job>) returns (m: Newest)
    ensures Folded(jobs, |jobs|, m)
  {
    hide Holds, FirstSeen, Counts, Lower, Folded;
    m := Newest([], map[]);
    NothingFolded(jobs);
    var n := 0;
    while n < |jobs|
      invariant 0 <= n <= |jobs|
      invariant Folded(jobs, n, m)
    {
      var j := jobs[n];
      var key := Lower(j.repoFullName);
      ghost var before := m;
      if j.lane == "rescore" {
        if key !in m.place {
          m := Newest(m.order + [key], m.place[key := n]);
          FoldedNew(jobs, n, before, key);
        } else {
          PlaceInRange(jobs, n, m, key);
          if j.at > jobs[m.place[key]].at {
            m := m.(place := m.place[key := n]);
          }
          FoldedOld(jobs, n, before, key, m);
        }
      } else {
        FoldedSkip(jobs, n, m);
      }
      n := n + 1;
    }
  }

  lemma NothingFolded(jobs: seq<Job>)
    ensures Folded(jobs, 0, Newest([], map[]))
  {
  }

  lemma PlaceInRange(jobs: seq<Job>, n: nat, m: Newest, key: string)
    requires Folded(jobs, n, m) && key in m.place
    ensures m.place[key] < n <= |jobs|
  {
    hide Holds, FirstSeen, Counts, Lower;
  }

  lemma HoldsStep(jobs: seq<Job>, n: nat, key: string, i: nat)
    requires n < |jobs| && i < n && Holds(jobs, n, key, i)
    ensures
      var next := if Counts(jobs[n], key) && jobs[n].at > jobs[i].at then n else i;
      Holds(jobs, n + 1, key, next)
  {
  }

  lemma HoldsFirst(jobs: seq<Job>, n: nat, key: string)
    requires n < |jobs| && Counts(jobs[n], key) && forall k: nat :: k < n ==> !Counts(jobs[k], key)
    ensures Holds(jobs, n + 1, key, n)
  {
  }

  lemma CountsOne(j: Job)
    ensures forall k :: Counts(j, k) <==> j.lane == "rescore" && k == Lower(j.repoFullName)
  {
  }

  lemma FoldedSkip(jobs: seq<Job>, n: nat, m: Newest)
    requires n < |jobs| && Folded(jobs, n, m) && jobs[n].lane != "rescore"
    ensures Folded(jobs, n + 1, m)
  {
    CountsOne(jobs[n]);
    hide Holds, FirstSeen, Counts;
    forall k | k in m.place
      ensures Holds(jobs, n + 1, k, m.place[k])
    {
      HoldsStep(jobs, n, k, m.place[k]);
    }
  }

  lemma FoldedNew(jobs: seq<Job>, n: nat, m: Newest, key: string)
    requires n < |jobs| && Folded(jobs, n, m) && jobs[n].lane == "rescore" && key == Lower(jobs[n].repoFullName) && key !in m.place
    ensures Folded(jobs, n + 1, Newest(m.order + [key], m.place[key := n]))
  {
    hide Holds, FirstSeen, Lower;
    var after := Newest(m.order + [key], m.place[key := n]);
    NotYetSeen(jobs, n, m, key);
    FirstSeenHere(jobs, key, n);
    HoldsFirst(jobs, n, key);
    forall k | k in m.place
      ensures Holds(jobs, n + 1, k, m.place[k])
    {
      HoldsStep(jobs, n, k, m.place[k]);
    }
    assert forall p :: 0 <= p < |m.order| ==> after.order[p] == m.order[p] && m.order[p] in m.order;
  }

  lemma NotYetSeen(jobs: seq<Job>, n: nat, m: Newest, key: string)
    requires n <= |jobs| && Folded(jobs, n, m) && key !in m.place
    ensures forall k: nat :: k < n ==> !Counts(jobs[k], key)
  {
    hide Holds, FirstSeen, Lower;
    forall k: nat | k < n
      ensures !Counts(jobs[k], key)
    {
      if jobs[k].lane == "rescore" {
        assert Lower(jobs[k].repoFullName) in m.place;
      }
    }
  }

  lemma FoldedOld(jobs: seq<Job>, n: nat, m: Newest, key: string, after: Newest)
    requires n < |jobs| && Folded(jobs, n, m) && jobs[n].lane == "rescore" && key == Lower(jobs[n].repoFullName)
    requires key in m.place && m.place[key] < n
    requires after == if jobs[n].at > jobs[m.place[key]].at then m.(place := m.place[key := n]) else m
    ensures Folded(jobs, n + 1, after)
  {
    hide Holds, FirstSeen, Lower;
    assert forall k :: k in after.place <==> k in m.place;
    forall k | k in after.place
      ensures after.place[k] < n + 1 && Holds(jobs, n + 1, k, after.place[k])
    {
      HoldsStep(jobs, n, k, m.place[k]);
    }
  }

  /** The owed entries in map order, before sorting. */
  ghost predicate Collected(jobs: seq<Job>, scans: seq<LastScan>, m: Newest, n: nat, owed: seq<Owed>)
    requires Folded(jobs, |jobs|, m) && n <= |m.order|
  {
    && (forall x :: x in owed ==> exists p: nat :: p < n && FromPlace(jobs, scans, m, p, x))
    && (forall p: nat, x :: p < n && FromPlace(jobs, scans, m, p, x) ==> x in owed)
    && (forall i, j :: 0 <= i < j < |owed| ==>
          FirstSeen(jobs, Lower(owed[i].repo)) < FirstSeen(jobs, Lower(owed[j].repo)))
  }

  predicate FromPlace(jobs: seq<Job>, scans: seq<LastScan>, m: Newest, p: nat, x: Owed) {
    && p < |m.order| && m.order[p] in m.place && m.place[m.order[p]] < |jobs|
    && IsOwed(jobs[m.place[m.order[p]]], scans) && x == OwedFor(jobs[m.place[m.order[p]]])
  }

  lemma PlaceKey(jobs: seq<Job>, scans: seq<LastScan>, m: Newest, p: nat, x: Owed)
    requires Folded(jobs, |jobs|, m) && FromPlace(jobs, scans, m, p, x)
    ensures Lower(x.repo) == m.order[p] && IsNewest(jobs, m.place[m.order[p]])
  {
    assert Holds(jobs, |jobs|, m.order[p], m.place[m.order[p]]);
  }

  method CollectOwed(jobs: seq<Job>, scans: seq<LastScan>, m: Newest) returns (owed: seq<Owed>)
    requires Folded(jobs, |jobs|, m)
    ensures Collected(jobs, scans, m, |m.order|, owed)
  {
    owed := [];
    var n := 0;
    while n < |m.order|
      invariant 0 <= n <= |m.order|
      invariant Collected(jobs, scans, m, n, owed)
    {
      assert m.order[n] in m.order;
      var j := jobs[m.place[m.order[n]]];
      ghost var before := owed;
      if IsOwed(j, scans) {
        owed := owed + [OwedFor(j)];
      }
      CollectedMore(jobs, scans, m, n, j, before, owed);
      n := n + 1;
    }
  }

  lemma CollectedMore(jobs: seq<Job>, scans: seq<LastScan>, m: Newest, n: nat, j: Job, owed: seq<Owed>, more: seq<Owed>)
    requires Folded(jobs, |jobs|, m) && n < |m.order| && Collected(jobs, scans, m, n, owed)
    requires m.order[n] in m.place && m.place[m.order[n]] < |jobs| && j == jobs[m.place[m.order[n]]]
    requires more == if IsOwed(j, scans) then owed + [OwedFor(j)] else owed
    ensures Collected(jobs, scans, m, n + 1, more)
  {
    hide IsOwed, Folded, FirstSeen, Lower;
    if IsOwed(j, scans) {
      assert FromPlace(jobs, scans, m, n, OwedFor(j));
      forall i | 0 <= i < |owed|
        ensures FirstSeen(jobs, Lower(owed[i].repo)) < FirstSeen(jobs, Lower(j.repoFullName))
      {
        assert owed[i] in owed;
        var p: nat :| p < n && FromPlace(jobs, scans, m, p, owed[i]);
        PlaceKey(jobs, scans, m, p, owed[i]);
        PlaceKey(jobs, scans, m, n, OwedFor(j));
        OrderIsSeen(jobs, m, p, n);
      }
    }
  }

  lemma OrderIsSeen(jobs: seq<Job>, m: Newest, p: nat, q: nat)
    requires Folded(jobs, |jobs|, m) && p < q < |m.order|
    ensures FirstSeen(jobs, m.order[p]) < FirstSeen(jobs, m.order[q])
  {
  }

  /**
   * The backlog is exactly the repositories whose newest rescore job is a credit skip with no later
   * scan; each once; oldest skip first, and equally old ones in the order they were first seen.
   */
  method FoldCreditBacklog(jobs: seq<Job>, scans: seq<LastScan>) returns (owed: seq<Owed>, oldestSkippedAt: Option<int>)
    ensures forall x :: x in owed <==> exists i: nat :: IsNewest(jobs, i) && IsOwed(jobs[i], scans) && x == OwedFor(jobs[i])
    ensures forall i, j :: 0 <= i < j < |owed| ==>
      || owed[i].skippedAt < owed[j].skippedAt
      || (owed[i].skippedAt == owed[j].skippedAt
          && FirstSeen(jobs, Lower(owed[i].repo)) < FirstSeen(jobs, Lower(owed[j].repo)))
    ensures forall i, j :: 0 <= i < j < |owed| ==> Lower(owed[i].repo) != Lower(owed[j].repo)
    ensures oldestSkippedAt == if owed == [] then None else Some(owed[0].skippedAt)
    ensures forall x :: x in owed ==> oldestSkippedAt.value <= x.skippedAt
  {
    var m := NewestByRepo(jobs);
    var found := CollectOwed(jobs, scans, m);
    owed := OldestFirst(found);
    KeepsAll(found, SkippedAt);
    SameMembers(found, owed);
    SortIsStable(found, SkippedAt, SeenRank(jobs), 1);
    OwedAreNewest(jobs, scans, m, found);
    EachRepoOnce(jobs, scans, owed);
    forall i, j | 0 <= i < j < |owed|
      ensures
        || owed[i].skippedAt < owed[j].skippedAt
        || (owed[i].skippedAt == owed[j].skippedAt
            && FirstSeen(jobs, Lower(owed[i].repo)) < FirstSeen(jobs, Lower(owed[j].repo)))
    {
      assert Before(owed[i], owed[j], SkippedAt, SeenRank(jobs), 1);
    }
    oldestSkippedAt := if owed == [] then None else Some(owed[0].skippedAt);
  }

  lemma SameRepoSameJob(jobs: seq<Job>, a: nat, b: nat)
    requires IsNewest(jobs, a) && IsNewest(jobs, b) && Lower(jobs[a].repoFullName) == Lower(jobs[b].repoFullName)
    ensures a == b
  {
    assert Counts(jobs[a], Lower(jobs[b].repoFullName)) && Counts(jobs[b], Lower(jobs[a].repoFullName));
  }

  lemma EachRepoOnce(jobs: seq<Job>, scans: seq<LastScan>, owed: seq<Owed>)
    requires Ranked(owed, SkippedAt, SeenRank(jobs), 1)
    requires forall x :: x in owed ==> exists i: nat :: IsNewest(jobs, i) && IsOwed(jobs[i], scans) && x == OwedFor(jobs[i])
    ensures forall i, j :: 0 <= i < j < |owed| ==> Lower(owed[i].repo) != Lower(owed[j].repo)
  {
    hide IsOwed, FirstSeen, Lower;
    forall i, j | 0 <= i < j < |owed|
      ensures Lower(owed[i].repo) != Lower(owed[j].repo)
    {
      assert owed[i] in owed && owed[j] in owed;
      var a: nat :| IsNewest(jobs, a) && IsOwed(jobs[a], scans) && owed[i] == OwedFor(jobs[a]);
      var b: nat :| IsNewest(jobs, b) && IsOwed(jobs[b], scans) && owed[j] == OwedFor(jobs[b]);
      assert Before(owed[i], owed[j], SkippedAt, SeenRank(jobs), 1);
      if Lower(owed[i].repo) == Lower(owed[j].repo) {
        SameRepoSameJob(jobs, a, b);
      }
    }
  }

  lemma OwedAreNewest(jobs: seq<Job>, scans: seq<LastScan>, m: Newest, owed: seq<Owed>)
    requires Folded(jobs, |jobs|, m) && Collected(jobs, scans, m, |m.order|, owed)
    ensures forall x :: x in owed <==> exists i: nat :: IsNewest(jobs, i) && IsOwed(jobs[i], scans) && x == OwedFor(jobs[i])
  {
    forall x | x in owed
      ensures exists i: nat :: IsNewest(jobs, i) && IsOwed(jobs[i], scans) && x == OwedFor(jobs[i])
    {
      var p: nat :| p < |m.order| && FromPlace(jobs, scans, m, p, x);
      PlaceKey(jobs, scans, m, p, x);
    }
    forall i: nat | IsNewest(jobs, i) && IsOwed(jobs[i], scans)
      ensures OwedFor(jobs[i]) in owed
    {
      var key := Lower(jobs[i].repoFullName);
      assert key in m.order;
      var p: nat :| p < |m.order| && m.order[p] == key;
      assert Holds(jobs, |jobs|, key, m.place[key]);
      assert Counts(jobs[i], key);
      assert m.place[key] == i;
      assert FromPlace(jobs, scans, m, p, OwedFor(jobs[i]));
    }
  }

  // ---------------------------------------------------------------------------------------------
  // The resume plan
  // ---------------------------------------------------------------------------------------------

  datatype ResumeCredit = ResumeCredit(balance: int, allowanceRemaining: Option<int>, unlimited: bool)

  datatype ResumePlan = ResumePlan(repos: seq<string>, deferred: int, drawsUpTo: Option<int>, topUpFirst: bool)

  function Names(owed: seq<Owed>): seq<string> {
    seq(|owed|, i requires 0 <= i < |owed| => owed[i].repo)
  }

  function AtLeastZero(x: int): nat {
    if x > 0 then x else 0
  }

  function Plan(owed: seq<Owed>, credit: ResumeCredit): ResumePlan {
    var ordered := OldestFirst(owed);
    if credit.unlimited then ResumePlan(Names(ordered), 0, None, false)
    else
      var allowance := AtLeastZero(if credit.allowanceRemaining.Some? then credit.allowanceRemaining.value else 0);
      var capacity := AtLeastZero(credit.balance) + allowance;
      var repos := Names(if capacity < |ordered| then ordered[..capacity] else ordered);
      ResumePlan(repos, |ordered| - |repos|, Some(AtLeastZero(|repos| - allowance)), |repos| == 0 && |ordered| > 0)
  }

  lemma PlanTakes(owed: seq<Owed>, credit: ResumeCredit)
    ensures
      var p := Plan(owed, credit);
      var n := |p.repos|;
      var free := AtLeastZero(if credit.allowanceRemaining.Some? then credit.allowanceRemaining.value else 0);
      && n <= |OldestFirst(owed)| == |owed|
      && p.repos == Names(OldestFirst(owed)[..n]) && p.deferred == |owed| - n
      && (credit.unlimited ==> n == |owed| && p.drawsUpTo == None && !p.topUpFirst)
      && (!credit.unlimited ==>
            && n == (if AtLeastZero(credit.balance) + free < |owed| then AtLeastZero(credit.balance) + free else |owed|)
            && p.drawsUpTo == Some(AtLeastZero(n - free))
            && (p.topUpFirst <==> n == 0 && owed != []))
  {
    hide SortBy;
    KeepsAll(owed, SkippedAt);
    var ordered := OldestFirst(owed);
    assert ordered[..|ordered|] == ordered;
  }

  /**
   * The plan splits the owed repositories in two with nothing lost: the ones it takes are the oldest,
   * as many as the balance and the free allowance carry; on a metered plan it draws no more than the
   * balance; and it is refused exactly when something is owed and nothing can be carried.
   */
  lemma PlanSplitsTheBacklog(owed: seq<Owed>, credit: ResumeCredit) returns (taken: seq<Owed>, left: seq<Owed>)
    ensures |Plan(owed, credit).repos| == |taken| && Plan(owed, credit).deferred == |left|
    ensures forall i :: 0 <= i < |taken| ==> Plan(owed, credit).repos[i] == taken[i].repo
    ensures multiset(taken + left) == multiset(owed)
    ensures forall x, y :: x in taken && y in left ==> x.skippedAt <= y.skippedAt
    ensures credit.unlimited ==> left == [] && Plan(owed, credit).drawsUpTo == None
    ensures credit.unlimited ==> !Plan(owed, credit).topUpFirst
    ensures !credit.unlimited ==>
      var free := AtLeastZero(if credit.allowanceRemaining.Some? then credit.allowanceRemaining.value else 0);
      && (left != [] ==> |taken| == AtLeastZero(credit.balance) + free)
      && |taken| <= AtLeastZero(credit.balance) + free
      && Plan(owed, credit).drawsUpTo == Some(if |taken| > free then |taken| - free else 0)
      && Plan(owed, credit).drawsUpTo.value <= AtLeastZero(credit.balance)
      && (Plan(owed, credit).topUpFirst <==> owed != [] && credit.balance <= 0 && free == 0)
  {
    hide OldestFirst;
    PlanTakes(owed, credit);
    hide Plan;
    var n := |Plan(owed, credit).repos|;
    taken, left := OldestFirst(owed)[..n], OldestFirst(owed)[n..];
    SplitIsOldest(owed, n);
  }

  lemma SplitIsOldest(owed: seq<Owed>, n: nat)
    requires n <= |OldestFirst(owed)|
    ensures multiset(OldestFirst(owed)[..n] + OldestFirst(owed)[n..]) == multiset(owed)
    ensures forall x, y :: x in OldestFirst(owed)[..n] && y in OldestFirst(owed)[n..] ==> x.skippedAt <= y.skippedAt
  {
    hide SortBy;
    var ordered := OldestFirst(owed);
    KeepsAll(owed, SkippedAt);
    SortSorts(owed, SkippedAt);
    assert ordered == ordered[..n] + ordered[n..];
    forall x, y | x in ordered[..n] && y in ordered[n..]
      ensures x.skippedAt <= y.skippedAt
    {
      var i :| 0 <= i < n && ordered[i] == x;
      var j :| n <= j < |ordered| && ordered[j] == y;
      assert SkippedAt(ordered[i]) <= SkippedAt(ordered[j]);
    }
  }
}
