/**
 Timestamps in a sliding window: the arithmetic shared by the in-memory rate limiter and the
 monthly scan quota. A window holds the timestamps of admitted hits; a hit `t` is in the window
 of length `w` at instant `now` exactly when `t > now - w`.
 */
module SlidingWindow {

  ghost predicate Sorted(hits: seq<int>) {
    forall i, j :: 0 <= i <= j < |hits| ==> hits[i] <= hits[j]
  }

  /** The hits strictly newer than `cutoff`, in order: `hits.filter((t) => t > cutoff)`. */
  function Live(hits: seq<int>, cutoff: int): seq<int> {
    if hits == [] then []
    else if hits[0] > cutoff then [hits[0]] + Live(hits[1..], cutoff)
    else Live(hits[1..], cutoff)
  }

  /** Takes out one entry equal to `t`, the last one; no change when there is none. */
  function Without(hits: seq<int>, t: int): seq<int> {
    if hits == [] then []
    else if t in hits[1..] then [hits[0]] + Without(hits[1..], t)
    else if hits[0] == t then hits[1..]
    else hits
  }

  /** Hits in the half-open interval `(from, to]`. */
  function CountIn(hits: seq<int>, from: int, to: int): nat {
    if hits == [] then 0
    else (if from < hits[0] <= to then 1 else 0) + CountIn(hits[1..], from, to)
  }

  /** Hits `limit` or more places apart are at least `w` apart: the index form of "at most `limit` per window". */
  ghost predicate Spaced(hits: seq<int>, limit: nat, w: int) {
    forall i, j :: 0 <= i && i + limit <= j < |hits| ==> hits[j] - hits[i] >= w
  }

  /** `Math.ceil(x / 1000)` */
  function CeilSeconds(x: int): int {
    -((-x) / 1000)
  }

  function Max(a: int, b: int): (r: int)
    ensures a <= r && b <= r && (r == a || r == b)
  {
    if a >= b then a else b
  }

  lemma CeilSecondsIs(x: int)
    ensures 1000 * (CeilSeconds(x) - 1) < x <= 1000 * CeilSeconds(x)
  {
  }

  // ---- Live ------------------------------------------------------------------------------------

  lemma {:induction false} LiveAppend(a: seq<int>, b: seq<int>, cutoff: int)
    ensures Live(a + b, cutoff) == Live(a, cutoff) + Live(b, cutoff)
  {
    if a == [] {
      assert a + b == b;
    } else {
      assert (a + b)[1..] == a[1..] + b;
      LiveAppend(a[1..], b, cutoff);
    }
  }

  lemma {:induction false} LiveTwice(hits: seq<int>, early: int, late: int)
    requires early <= late
    ensures Live(Live(hits, early), late) == Live(hits, late)
  {
    if hits != [] {
      LiveTwice(hits[1..], early, late);
      if hits[0] > early {
        assert Live(hits, early)[1..] == Live(hits[1..], early);
      }
    }
  }

  lemma {:induction false} LiveMember(hits: seq<int>, cutoff: int, t: int)
    ensures t in Live(hits, cutoff) <==> t in hits && t > cutoff
  {
    if hits != [] {
      LiveMember(hits[1..], cutoff, t);
    }
  }

  lemma {:induction false} LiveOfYoung(hits: seq<int>, cutoff: int)
    requires forall i :: 0 <= i < |hits| ==> hits[i] > cutoff
    ensures Live(hits, cutoff) == hits
  {
    if hits != [] {
      LiveOfYoung(hits[1..], cutoff);
    }
  }

  lemma {:induction false} LiveOfOld(hits: seq<int>, cutoff: int)
    requires forall i :: 0 <= i < |hits| ==> hits[i] <= cutoff
    ensures Live(hits, cutoff) == []
  {
    if hits != [] {
      LiveOfOld(hits[1..], cutoff);
    }
  }

  function Dead(hits: seq<int>, cutoff: int): (n: nat)
    ensures n <= |hits|
    ensures forall i :: 0 <= i < n ==> hits[i] <= cutoff
    ensures n < |hits| ==> hits[n] > cutoff
  {
    if hits == [] || hits[0] > cutoff then 0 else 1 + Dead(hits[1..], cutoff)
  }

  /** Trimming a sorted window cuts off a prefix. */
  lemma LiveIsSuffix(hits: seq<int>, cutoff: int) returns (dead: nat)
    requires Sorted(hits)
    ensures dead <= |hits| && Live(hits, cutoff) == hits[dead..]
    ensures forall i :: 0 <= i < dead ==> hits[i] <= cutoff
    ensures forall i :: dead <= i < |hits| ==> hits[i] > cutoff
  {
    dead := Dead(hits, cutoff);
    assert hits == hits[..dead] + hits[dead..];
    LiveAppend(hits[..dead], hits[dead..], cutoff);
    LiveOfOld(hits[..dead], cutoff);
    LiveOfYoung(hits[dead..], cutoff);
  }

  /** Once a key's newest hit has aged out, so has every other. */
  lemma LiveOfDead(hits: seq<int>, cutoff: int)
    requires Sorted(hits) && (hits == [] || hits[|hits| - 1] <= cutoff)
    ensures Live(hits, cutoff) == []
  {
    LiveOfOld(hits, cutoff);
  }

  // ---- removal by value ------------------------------------------------------------------------

  lemma {:induction false} LiveWithout(hits: seq<int>, t: int, cutoff: int)
    ensures Live(Without(hits, t), cutoff) == if t > cutoff then Without(Live(hits, cutoff), t) else Live(hits, cutoff)
  {
    if hits != [] {
      LiveWithout(hits[1..], t, cutoff);
      LiveMember(hits[1..], cutoff, t);
      if hits[0] > cutoff {
        assert Live(hits, cutoff)[1..] == Live(hits[1..], cutoff);
      }
      if t in hits[1..] {
        assert Without(hits, t)[1..] == Without(hits[1..], t);
      } else if t !in hits {
        WithoutAbsent(Live(hits, cutoff), t) by { LiveMember(hits, cutoff, t); }
      } else {
        assert hits[0] == t;
        if t <= cutoff {
        } else {
          assert Live(hits, cutoff) == [t] + Live(hits[1..], cutoff);
        }
      }
    }
  }

  lemma {:induction false} WithoutAbsent(hits: seq<int>, t: int)
    requires t !in hits
    ensures Without(hits, t) == hits
  {
  }

  lemma {:induction false} WithoutMultiset(hits: seq<int>, t: int)
    ensures multiset(Without(hits, t)) == multiset(hits) - multiset{t}
  {
    if hits != [] {
      assert hits == [hits[0]] + hits[1..];
      WithoutMultiset(hits[1..], t);
      if t !in hits[1..] && hits[0] != t {
        assert t !in hits;
      }
    }
  }

  /** `Without` is the splice at `lastIndexOf`. */
  lemma {:induction false} WithoutIsSplice(hits: seq<int>, t: int, at: nat)
    requires at < |hits| && hits[at] == t
    requires forall j :: at < j < |hits| ==> hits[j] != t
    ensures Without(hits, t) == hits[..at] + hits[at + 1..]
  {
    if at == 0 {
      assert t !in hits[1..];
      assert hits[..0] + hits[1..] == hits[1..];
    } else {
      assert hits[1..][at - 1] == t;
      WithoutIsSplice(hits[1..], t, at - 1);
      CutInTail(hits, at);
    }
  }

  lemma CutInTail(hits: seq<int>, at: nat)
    requires 0 < at < |hits|
    ensures [hits[0]] + (hits[1..][..at - 1] + hits[1..][at..]) == hits[..at] + hits[at + 1..]
  {
    assert [hits[0]] + hits[1..][..at - 1] == hits[..at];
    assert hits[1..][at..] == hits[at + 1..];
  }

  lemma WithoutShape(hits: seq<int>, t: int) returns (at: nat)
    requires t in hits
    ensures at < |hits| && hits[at] == t && Without(hits, t) == hits[..at] + hits[at + 1..]
  {
    at := |hits| - 1;
    while hits[at] != t
      invariant at < |hits|
      invariant forall j :: at < j < |hits| ==> hits[j] != t
      decreases at
    {
      assert exists j :: 0 <= j < |hits| && hits[j] == t;
      at := at - 1;
    }
    WithoutIsSplice(hits, t, at);
  }

  lemma SpliceKeeps(hits: seq<int>, at: nat, limit: nat, w: int)
    requires Sorted(hits) && Spaced(hits, limit, w) && at < |hits|
    ensures var cut := hits[..at] + hits[at + 1..];
            && Sorted(cut) && Spaced(cut, limit, w)
            && forall i :: 0 <= i < |cut| ==> cut[i] in hits
  {
    var cut := hits[..at] + hits[at + 1..];
    assert forall i :: 0 <= i < |cut| ==> cut[i] == hits[if i < at then i else i + 1];
  }

  lemma WithoutKeeps(hits: seq<int>, t: int, limit: nat, w: int)
    requires Sorted(hits) && Spaced(hits, limit, w)
    ensures Sorted(Without(hits, t)) && Spaced(Without(hits, t), limit, w)
    ensures forall x :: x in Without(hits, t) ==> x in hits
  {
    hide Without, Sorted, Spaced;
    if t in hits {
      var at := WithoutShape(hits, t);
      SpliceKeeps(hits, at, limit, w);
    } else {
      WithoutAbsent(hits, t);
    }
  }

  // ---- the bound -------------------------------------------------------------------------------

  lemma {:induction false} CountInAppend(a: seq<int>, b: seq<int>, from: int, to: int)
    ensures CountIn(a + b, from, to) == CountIn(a, from, to) + CountIn(b, from, to)
  {
    if a == [] {
      assert a + b == b;
    } else {
      assert (a + b)[1..] == a[1..] + b;
      CountInAppend(a[1..], b, from, to);
    }
  }

  /** Recording a hit that was admitted under the cap keeps the spacing. */
  lemma AdmitKeepsSpaced(hits: seq<int>, limit: nat, w: int, now: int, at: int)
    requires Sorted(hits) && Spaced(hits, limit, w)
    requires forall t :: t in hits ==> t <= at
    requires now <= at && |Live(hits, now - w)| < limit
    ensures Sorted(hits + [at]) && Spaced(hits + [at], limit, w)
  {
    var dead := LiveIsSuffix(hits, now - w);
    var more := hits + [at];
    forall i, j | 0 <= i <= j < |more|
      ensures more[i] <= more[j]
    {
      if j == |hits| && i < j {
        assert more[i] in hits;
      }
    }
    forall i, j | 0 <= i && i + limit <= j < |more|
      ensures more[j] - more[i] >= w
    {
      if j == |hits| {
        assert hits[i] <= now - w;
      }
    }
  }

  lemma {:induction false} CountInFew(hits: seq<int>, from: int, to: int)
    ensures CountIn(hits, from, to) <= |hits|
  {
    if hits != [] {
      CountInFew(hits[1..], from, to);
    }
  }

  lemma {:induction false} CountInNone(hits: seq<int>, from: int, to: int)
    requires forall t :: t in hits ==> t <= from || t > to
    ensures CountIn(hits, from, to) == 0
  {
    if hits != [] {
      assert hits[0] in hits && forall t :: t in hits[1..] ==> t in hits;
      CountInNone(hits[1..], from, to);
    }
  }

  lemma SpacedPart(hits: seq<int>, limit: nat, w: int, n: nat)
    requires Spaced(hits, limit, w) && n <= |hits|
    ensures Spaced(hits[n..], limit, w)
  {
  }

  lemma CountInSpacedSuffix(young: seq<int>, limit: nat, w: int, from: int)
    requires Spaced(young, limit, w)
    requires forall i :: 0 <= i < |young| ==> young[i] > from
    ensures CountIn(young, from, from + w) <= limit
  {
    if |young| <= limit {
      CountInFew(young, from, from + w);
    } else {
      var near, far := young[..limit], young[limit..];
      assert young == near + far;
      CountInAppend(near, far, from, from + w);
      CountInFew(near, from, from + w);
      forall t | t in far
        ensures t > from + w
      {
        var k :| 0 <= k < |far| && far[k] == t;
        assert young[limit + k] - young[0] >= w;
      }
      CountInNone(far, from, from + w);
    }
  }

  /** Spacing bounds every half-open interval of length `w`, wherever it starts. */
  lemma SpacedBoundsEveryInterval(hits: seq<int>, limit: nat, w: int, from: int)
    requires Sorted(hits) && Spaced(hits, limit, w)
    ensures CountIn(hits, from, from + w) <= limit
  {
    var dead := LiveIsSuffix(hits, from);
    SpacedPart(hits, limit, w, dead);
    hide Sorted, Spaced, CountIn;
    assert hits == hits[..dead] + hits[dead..];
    CountInAppend(hits[..dead], hits[dead..], from, from + w);
    CountInNone(hits[..dead], from, from + w);
    CountInSpacedSuffix(hits[dead..], limit, w, from);
  }

  lemma {:induction false} CountInOfLive(hits: seq<int>, cutoff: int, to: int)
    requires forall t :: t in hits ==> t <= to
    ensures CountIn(hits, cutoff, to) == |Live(hits, cutoff)|
  {
    if hits != [] {
      assert hits[0] in hits && forall t :: t in hits[1..] ==> t in hits;
      CountInOfLive(hits[1..], cutoff, to);
    }
  }

  // ---- order does not matter -------------------------------------------------------------------

  lemma {:induction false} LiveMultiset(a: seq<int>, b: seq<int>, cutoff: int)
    requires multiset(a) == multiset(b)
    ensures multiset(Live(a, cutoff)) == multiset(Live(b, cutoff))
  {
    forall t
      ensures multiset(Live(a, cutoff))[t] == multiset(Live(b, cutoff))[t]
    {
      LiveMultiplicity(a, cutoff, t);
      LiveMultiplicity(b, cutoff, t);
    }
  }

  lemma {:induction false} LiveMultiplicity(hits: seq<int>, cutoff: int, t: int)
    ensures multiset(Live(hits, cutoff))[t] == if t > cutoff then multiset(hits)[t] else 0
  {
    if hits != [] {
      assert hits == [hits[0]] + hits[1..];
      LiveMultiplicity(hits[1..], cutoff, t);
    }
  }

  lemma {:induction false} CountInSplice(hits: seq<int>, at: nat, from: int, to: int)
    requires at < |hits|
    ensures CountIn(hits, from, to)
         == CountIn(hits[..at] + hits[at + 1..], from, to) + (if from < hits[at] <= to then 1 else 0)
  {
    assert hits == hits[..at] + hits[at..];
    CountInAppend(hits[..at], hits[at..], from, to);
    CountInAppend(hits[..at], hits[at + 1..], from, to);
    assert hits[at..][1..] == hits[at + 1..];
  }

  lemma {:induction false} CountInMultiset(a: seq<int>, b: seq<int>, from: int, to: int)
    requires multiset(a) == multiset(b)
    ensures CountIn(a, from, to) == CountIn(b, from, to)
  {
    if a == [] {
      assert |multiset(b)| == |multiset(a)| == 0;
      assert b == [];
    } else {
      assert a == [a[0]] + a[1..];
      assert a[0] in multiset(b);
      var at := WithoutShape(b, a[0]);
      assert multiset(Without(b, a[0])) == multiset(a[1..]) by { WithoutMultiset(b, a[0]); }
      CountInMultiset(a[1..], Without(b, a[0]), from, to);
      CountInSplice(b, at, from, to);
    }
  }
}
