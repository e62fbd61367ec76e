/**
 * Dimensions that fell and stayed down. Scans come newest first; a dimension is reported when some
 * earlier reading stands `drop` or more above every reading since, and enough scans have been taken
 * since the nearest such reading. The detector walks outward with a running maximum.
 */
module StandingRegressions {
  import opened Common
  import opened StableSort

  datatype Dimension = Dimension(dimId: string, score: int)

  /** One scan; an engine that is not named counts as real. */
  datatype Point = Point(id: Option<string>, scannedAt: string, engine: Option<string>, dimensions: seq<Dimension>)

  datatype Reading = Reading(score: int, scannedAt: string, id: Option<string>)

  datatype Concern = Concern(dimId: string, current: Reading, baseline: Reading, drop: int, scansHeld: nat, since: string)

  const MOCK_ENGINE := "mock"

  predicate IsReal(p: Point) {
    p.engine != Some(MOCK_ENGINE)
  }

  function Real(points: seq<Point>): (kept: seq<Point>)
    ensures |kept| <= |points|
  {
    if points == [] then []
    else if IsReal(points[0]) then [points[0]] + Real(points[1..])
    else Real(points[1..])
  }

  /** The first entry for the dimension, when the scan has one. */
  function Find(dimensions: seq<Dimension>, dimId: string): Option<int> {
    if dimensions == [] then None
    else if dimensions[0].dimId == dimId then Some(dimensions[0].score)
    else Find(dimensions[1..], dimId)
  }

  /** A scan that lacks the dimension is skipped, not read as zero. */
  function Series(scans: seq<Point>, dimId: string): (series: seq<Reading>)
    ensures |series| <= |scans|
  {
    if scans == [] then []
    else
      var rest := Series(scans[1..], dimId);
      match Find(scans[0].dimensions, dimId)
      case None => rest
      case Some(score) => [Reading(score, scans[0].scannedAt, scans[0].id)] + rest
  }

  /** Reading `i` stands `drop` or more above every newer one. */
  predicate Stands(series: seq<Reading>, drop: int, i: nat) {
    1 <= i < |series| && forall j :: 0 <= j < i ==> series[i].score - series[j].score >= drop
  }

  /** The nearest such reading. */
  predicate Nearest(series: seq<Reading>, drop: int, i: nat) {
    Stands(series, drop, i) && forall j: nat :: j < i ==> !Stands(series, drop, j)
  }

  function ConcernAt(dimId: string, series: seq<Reading>, i: nat): Concern
    requires 1 <= i < |series|
  {
    Concern(dimId, series[0], series[i], series[i].score - series[0].score, i, series[i - 1].scannedAt)
  }

  /** What should be said of one dimension: stated on the readings alone, with no walk and no length test. */
  ghost function Finding(dimId: string, series: seq<Reading>, drop: int, hold: int): Option<Concern> {
    if exists i: nat :: Nearest(series, drop, i) && i >= hold then
      var i: nat :| Nearest(series, drop, i) && i >= hold;
      Some(ConcernAt(dimId, series, i))
    else None
  }

  /** The findings for the dimensions of the newest real scan, in its order. */
  ghost function Findings(dimIds: seq<Dimension>, scans: seq<Point>, drop: int, hold: int): seq<Concern> {
    if dimIds == [] then []
    else
      var rest := Findings(dimIds[1..], scans, drop, hold);
      match Finding(dimIds[0].dimId, Series(scans, dimIds[0].dimId), drop, hold)
      case None => rest
      case Some(c) => [c] + rest
  }

  ghost function Report(points: seq<Point>, drop: int, hold: int): seq<Concern> {
    var scans := Real(points);
    if scans == [] then [] else Findings(scans[0].dimensions, scans, drop, hold)
  }

  lemma NearestIsOne(series: seq<Reading>, drop: int, i: nat, j: nat)
    requires Nearest(series, drop, i) && Nearest(series, drop, j)
    ensures i == j
  {
    assert Stands(series, drop, i) && Stands(series, drop, j);
  }

  lemma FindingAt(dimId: string, series: seq<Reading>, drop: int, hold: int, i: nat)
    requires Nearest(series, drop, i)
    ensures Finding(dimId, series, drop, hold) == if i >= hold then Some(ConcernAt(dimId, series, i)) else None
  {
    forall j: nat | Nearest(series, drop, j)
      ensures j == i
    {
      NearestIsOne(series, drop, i, j);
    }
  }

  /** One dimension's walk outward: the running maximum finds the nearest standing reading, or there is none. */
  method Walk(dimId: string, series: seq<Reading>, drop: int, hold: int) returns (found: Option<Concern>)
    ensures found == Finding(dimId, series, drop, hold)
  {
    if series == [] || |series| < hold + 1 {
      return None;
    }
    var depressedMax := series[0].score;
    var top: nat := 0;
    var i: nat := 1;
    while i < |series|
      invariant 1 <= i <= |series|
      invariant top < i && series[top].score == depressedMax
      invariant forall j :: 0 <= j < i ==> series[j].score <= depressedMax
      invariant forall j: nat :: j < i ==> !Stands(series, drop, j)
    {
      if series[i].score - depressedMax >= drop {
        assert Nearest(series, drop, i);
        FindingAt(dimId, series, drop, hold, i);
        return if i >= hold then Some(ConcernAt(dimId, series, i)) else None;
      }
      assert series[i].score - series[top].score < drop;
      if series[i].score > depressedMax {
        depressedMax := series[i].score;
        top := i;
      }
      i := i + 1;
    }
    return None;
  }

  method Readings(scans: seq<Point>, dimId: string) returns (series: seq<Reading>)
    ensures series == Series(scans, dimId)
  {
    series := [];
    var p := 0;
    assert scans[0..] == scans;
    while p < |scans|
      invariant 0 <= p <= |scans|
      invariant series + Series(scans[p..], dimId) == Series(scans, dimId)
    {
      assert scans[p..][1..] == scans[p + 1..];
      var hit := Find(scans[p].dimensions, dimId);
      if hit.Some? {
        series := series + [Reading(hit.value, scans[p].scannedAt, scans[p].id)];
      }
      p := p + 1;
    }
  }

  function Fall(c: Concern): int {
    -c.drop
  }

  /** Where the reader's locale puts a dimension's name. */
  function ByName(collate: string -> int): Concern -> int {
    (c: Concern) => collate(c.dimId)
  }

  /** The whole detector, length tests and all, reports exactly the findings: deepest fall first, then by name. */
  method DetectStandingRegressions(points: seq<Point>, drop: int, hold: int, collate: string -> int) returns (out: seq<Concern>)
    ensures multiset(out) == multiset(Report(points, drop, hold))
    ensures forall i, j :: 0 <= i < j < |out| ==>
      out[i].drop > out[j].drop || (out[i].drop == out[j].drop && collate(out[i].dimId) <= collate(out[j].dimId))
  {
    var found := FindStanding(points, drop, hold);
    var byName := SortBy(found, ByName(collate));
    out := SortBy(byName, Fall);
    KeepsAll(found, ByName(collate));
    KeepsAll(byName, Fall);
    SortSorts(found, ByName(collate));
    SortIsStable(byName, Fall, ByName(collate), 0);
    forall i, j | 0 <= i < j < |out|
      ensures out[i].drop > out[j].drop || (out[i].drop == out[j].drop && collate(out[i].dimId) <= collate(out[j].dimId))
    {
      assert Before(out[i], out[j], Fall, ByName(collate), 0);
    }
  }

  /** The walks over every dimension of the newest real scan, before the findings are put in order. */
  method FindStanding(points: seq<Point>, drop: int, hold: int) returns (out: seq<Concern>)
    ensures out == Report(points, drop, hold)
  {
    hide Finding, Series;
    var scans := Real(points);
    out := [];
    if |scans| < hold + 1 {
      TooShortToReport(points, drop, hold);
      return;
    }
    if scans == [] {
      return;
    }
    var dims := scans[0].dimensions;
    var k := 0;
    assert dims[0..] == dims;
    while k < |dims|
      invariant 0 <= k <= |dims|
      invariant out + Findings(dims[k..], scans, drop, hold) == Findings(dims, scans, drop, hold)
    {
      var series := Readings(scans, dims[k].dimId);
      assert dims[k..][0] == dims[k] && dims[k..][1..] == dims[k + 1..];
      assert forall c: Concern :: out + ([c] + Findings(dims[k + 1..], scans, drop, hold)) == (out + [c]) + Findings(dims[k + 1..], scans, drop, hold);
      var found := Walk(dims[k].dimId, series, drop, hold);
      if found.Some? {
        out := out + [found.value];
      }
      k := k + 1;
    }
  }

  lemma {:induction false} ShortFindings(dims: seq<Dimension>, scans: seq<Point>, drop: int, hold: int)
    requires |scans| < hold + 1
    ensures Findings(dims, scans, drop, hold) == []
  {
    if dims != [] {
      ShortFindings(dims[1..], scans, drop, hold);
    }
  }

  lemma TooShortToReport(points: seq<Point>, drop: int, hold: int)
    requires |Real(points)| < hold + 1
    ensures Report(points, drop, hold) == []
  {
    if Real(points) != [] {
      ShortFindings(Real(points)[0].dimensions, Real(points), drop, hold);
    }
  }

  /**
   * A dimension is reported if and only if its newest-first readings have a nearest standing reading at
   * least `hold` scans back; then the report measures against that reading, counts the scans since, and
   * every reading since it sits `drop` or more below.
   */
  lemma {:induction false} ReportedIff(dims: seq<Dimension>, scans: seq<Point>, drop: int, hold: int, dimId: string)
    ensures Reports(Findings(dims, scans, drop, hold), dimId) <==> Lists(dims, dimId) && HasFinding(Series(scans, dimId), drop, hold)
    ensures forall c :: c in Findings(dims, scans, drop, hold) && c.dimId == dimId ==>
      Supported(c, Series(scans, dimId), drop, hold)
  {
    if dims != [] {
      ReportedIff(dims[1..], scans, drop, hold, dimId);
      FindingsStep(dims, scans, drop, hold);
      FindingIff(dims[0].dimId, Series(scans, dims[0].dimId), drop, hold);
      assert dims == [dims[0]] + dims[1..];
      assert Lists(dims, dimId) <==> dims[0].dimId == dimId || Lists(dims[1..], dimId);
    }
  }

  predicate Lists(dims: seq<Dimension>, dimId: string) {
    exists d :: d in dims && d.dimId == dimId
  }

  predicate Reports(found: seq<Concern>, dimId: string) {
    exists c :: c in found && c.dimId == dimId
  }

  ghost predicate HasFinding(series: seq<Reading>, drop: int, hold: int) {
    exists i: nat :: Nearest(series, drop, i) && i >= hold
  }

  /** The concern is the one the readings support: its nearest standing reading, far enough back. */
  predicate Supported(c: Concern, series: seq<Reading>, drop: int, hold: int) {
    && Nearest(series, drop, c.scansHeld) && c.scansHeld >= hold
    && c.current == series[0] && c.baseline == series[c.scansHeld] && c.since == series[c.scansHeld - 1].scannedAt
    && c.drop == c.baseline.score - c.current.score >= drop
  }

  lemma FindingIff(dimId: string, series: seq<Reading>, drop: int, hold: int)
    ensures
      var found := Finding(dimId, series, drop, hold);
      && (found.Some? <==> HasFinding(series, drop, hold))
      && (found.Some? ==> found.value.dimId == dimId && Supported(found.value, series, drop, hold))
  {
  }

  lemma FindingsStep(dims: seq<Dimension>, scans: seq<Point>, drop: int, hold: int)
    requires dims != []
    ensures
      var found := Finding(dims[0].dimId, Series(scans, dims[0].dimId), drop, hold);
      var rest := Findings(dims[1..], scans, drop, hold);
      forall c :: c in Findings(dims, scans, drop, hold) <==> found == Some(c) || c in rest
  {
    hide Finding;
  }

  predicate IsFirstEntry(dims: seq<Dimension>, dimId: string, q: nat) {
    q < |dims| && dims[q].dimId == dimId && forall j :: 0 <= j < q ==> dims[j].dimId != dimId
  }

  /** What a scan says of a dimension is the first entry that names it, if any does. */
  lemma {:induction false} FirstEntryCounts(dims: seq<Dimension>, dimId: string)
    ensures Find(dims, dimId).Some? <==> Lists(dims, dimId)
    ensures forall q: nat :: IsFirstEntry(dims, dimId, q) ==> Find(dims, dimId) == Some(dims[q].score)
  {
    if dims != [] {
      FirstEntryCounts(dims[1..], dimId);
      assert dims == [dims[0]] + dims[1..];
      forall q: nat | IsFirstEntry(dims, dimId, q)
        ensures Find(dims, dimId) == Some(dims[q].score)
      {
        if q > 0 {
          assert IsFirstEntry(dims[1..], dimId, q - 1);
        }
      }
    }
  }

  lemma {:induction false} SeriesAppend(a: seq<Point>, b: seq<Point>, dimId: string)
    ensures Series(a + b, dimId) == Series(a, dimId) + Series(b, dimId)
  {
    if a == [] {
      assert a + b == b;
    } else {
      assert (a + b)[1..] == a[1..] + b;
      SeriesAppend(a[1..], b, dimId);
    }
  }

  /**
   * A dimension's readings, newest first: each scan that lists it gives one, at its own place, with the
   * score of its first entry; a scan that does not list it gives none.
   */
  lemma EachScanGivesItsReading(scans: seq<Point>, dimId: string, p: nat)
    requires p < |scans|
    ensures
      var newer, older := Series(scans[..p], dimId), Series(scans[p + 1..], dimId);
      && (!Lists(scans[p].dimensions, dimId) ==> Series(scans, dimId) == newer + older)
      && forall q: nat :: IsFirstEntry(scans[p].dimensions, dimId, q) ==>
           Series(scans, dimId)
           == newer + [Reading(scans[p].dimensions[q].score, scans[p].scannedAt, scans[p].id)] + older
  {
    FirstEntryCounts(scans[p].dimensions, dimId);
    assert scans == scans[..p] + ([scans[p]] + scans[p + 1..]);
    SeriesAppend(scans[..p], [scans[p]] + scans[p + 1..], dimId);
    SeriesAppend([scans[p]], scans[p + 1..], dimId);
    assert Series([scans[p]][1..], dimId) == [];
  }

  /** A scan counts unless the mock engine made it: a history without such scans is read whole. */
  lemma {:induction false} RealScansAllCount(points: seq<Point>)
    requires forall p :: p in points ==> p.engine != Some("mock")
    ensures Real(points) == points
  {
    if points != [] {
      assert points[0] in points;
      RealScansAllCount(points[1..]);
    }
  }

  lemma {:induction false} RealAppend(a: seq<Point>, b: seq<Point>)
    ensures Real(a + b) == Real(a) + Real(b)
  {
    if a == [] {
      assert a + b == b;
    } else {
      assert (a + b)[1..] == a[1..] + b;
      RealAppend(a[1..], b);
    }
  }

  /** A scan by the mock engine changes no report, wherever in the history it sits. */
  lemma MockScansNeverMatter(before: seq<Point>, mock: Point, after: seq<Point>, drop: int, hold: int)
    requires mock.engine == Some(MOCK_ENGINE)
    ensures Report(before + [mock] + after, drop, hold) == Report(before + after, drop, hold)
  {
    RealAppend(before + [mock], after);
    RealAppend(before, [mock]);
    RealAppend(before, after);
    assert Real([mock]) == [] && Real(before) + [] == Real(before);
  }

  /** The smallest claim the evidence supports: any other reading that stands is further back and no lower a bar. */
  lemma NearestIsSmallestClaim(series: seq<Reading>, drop: int, i: nat, k: nat)
    requires Nearest(series, drop, i) && Stands(series, drop, k) && drop > 0
    ensures i <= k && series[i].score <= series[k].score
  {
    assert i <= k;
    if i < k {
      assert series[k].score - series[i].score >= drop;
    }
  }
}
