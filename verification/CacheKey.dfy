/**
 * The scan-cache key. Every reader and writer of the cache prints its subject through one function, so
 * the cache is only as safe as that printing is injective: the reader below takes a key apart again.
 */
module CacheKey {
  import opened Common

  // ---------------------------------------------------------------------------------------------
  // The fingerprint: 32-bit FNV-1a over UTF-16 code units, as eight hex digits
  // ---------------------------------------------------------------------------------------------

  const WORD: nat := 0x1_0000_0000
  const FNV_BASIS: nat := 0x811c9dc5
  const FNV_PRIME: nat := 0x01000193

  /** `a ^ b`, bit by bit. */
  function Xor(a: nat, b: nat): nat {
    if a == 0 && b == 0 then 0 else 2 * Xor(a / 2, b / 2) + (a + b) % 2
  }

  /** One step: exclusive-or with the code unit, then `Math.imul`, which keeps the low 32 bits. */
  function FnvUnit(h: nat, unit: nat): nat {
    (Xor(h, unit) * FNV_PRIME) % WORD
  }

  /** A code unit is below 2^16. */
  function Fnv(s: seq<nat>): (h: nat)
    ensures h < WORD
  {
    if s == [] then FNV_BASIS else FnvUnit(Fnv(s[..|s| - 1]), s[|s| - 1])
  }

  predicate Units(s: seq<nat>) {
    forall i :: 0 <= i < |s| ==> s[i] < 0x1_0000
  }

  function HexDigit(n: nat): char
    requires n < 16
  {
    "0123456789abcdef"[n]
  }

  /** `toString(16)`: no leading zeros, and "0" for zero. */
  function Hex(n: nat): (s: string)
    ensures |s| >= 1
  {
    if n < 16 then [HexDigit(n)] else Hex(n / 16) + [HexDigit(n % 16)]
  }

  function PadStart(s: string, width: nat): (padded: string)
    ensures |padded| == if |s| < width then width else |s|
    decreases width - |s|
  {
    if |s| < width then PadStart("0" + s, width) else s
  }

  function Pow16(k: nat): nat {
    if k == 0 then 1 else 16 * Pow16(k - 1)
  }

  lemma {:induction false} HexLength(n: nat, k: nat)
    requires k >= 1 && n < Pow16(k)
    ensures |Hex(n)| <= k
  {
    if n >= 16 {
      assert k >= 2;
      HexLength(n / 16, k - 1);
    }
  }

  lemma WordFitsEightDigits(h: nat)
    requires h < WORD
    ensures |PadStart(Hex(h), 8)| == 8
  {
    assert Pow16(4) == 0x1_0000;
    assert Pow16(8) == 0x1_0000_0000;
    HexLength(h, 8);
  }

  /** Whatever the text, the printed hash has exactly eight digits. */
  method ShortHash(s: seq<nat>) returns (text: string)
    ensures text == Fingerprint(s) && |text| == 8
  {
    hide FnvUnit, Hex, PadStart;
    var h := FNV_BASIS;
    var i := 0;
    while i < |s|
      invariant 0 <= i <= |s|
      invariant h == Fnv(s[..i])
    {
      assert s[..i + 1][..i] == s[..i];
      h := FnvUnit(h, s[i]);
      i := i + 1;
    }
    assert s[..|s|] == s;
    WordFitsEightDigits(h);
    text := PadStart(Hex(h), 8);
  }

  // ---- how far the fingerprint can be trusted ----------------------------------------------------

  lemma XorHalves(a: nat, b: nat)
    ensures Xor(a, b) / 2 == Xor(a / 2, b / 2) && Xor(a, b) % 2 == (a + b) % 2
  {
  }

  lemma SameHalves(x: nat, y: nat)
    requires x / 2 == y / 2 && x % 2 == y % 2
    ensures x == y
  {
  }

  lemma ParityUndone(a: nat, b: nat, c: nat)
    requires c % 2 == (a + b) % 2
    ensures (c + b) % 2 == a % 2 && (a + c) % 2 == b % 2
  {
    var i, j, k := a / 2, b / 2, c / 2;
    assert a == 2 * i + a % 2 && b == 2 * j + b % 2 && c == 2 * k + c % 2;
  }

  lemma {:induction false} XorUndone(a: nat, b: nat)
    ensures Xor(Xor(a, b), b) == a && Xor(a, Xor(a, b)) == b
    decreases a + b
  {
    if a != 0 || b != 0 {
      XorUndone(a / 2, b / 2);
      XorUndoneOnce(a, b);
    }
  }

  lemma XorUndoneOnce(a: nat, b: nat)
    requires Xor(Xor(a / 2, b / 2), b / 2) == a / 2 && Xor(a / 2, Xor(a / 2, b / 2)) == b / 2
    ensures Xor(Xor(a, b), b) == a && Xor(a, Xor(a, b)) == b
  {
    hide Xor;
    var c := Xor(a, b);
    XorHalves(a, b);
    XorHalves(c, b);
    XorHalves(a, c);
    ParityUndone(a, b, c);
    SameHalves(Xor(c, b), a);
    SameHalves(Xor(a, c), b);
  }

  lemma {:induction false} XorFits(a: nat, b: nat, bound: nat)
    requires a < Pow2(bound) && b < Pow2(bound)
    ensures Xor(a, b) < Pow2(bound)
  {
    if a != 0 || b != 0 {
      XorFits(a / 2, b / 2, bound - 1);
    }
  }

  function Pow2(k: nat): nat {
    if k == 0 then 1 else 2 * Pow2(k - 1)
  }

  lemma WordIsPow2()
    ensures Pow2(32) == WORD
  {
    assert Pow2(8) == 0x100;
    assert Pow2(16) == 0x1_0000;
    assert Pow2(24) == 0x100_0000;
  }

  /** The prime is odd, so multiplying by it modulo 2^32 can be undone. */
  lemma TimesPrimeUndone(x: nat)
    requires x < WORD
    ensures (((x * FNV_PRIME) % WORD) * 0x359c449b) % WORD == x
  {
    var q, r := x * FNV_PRIME / WORD, (x * FNV_PRIME) % WORD;
    var k := x * 0x359c99 - q * 0x359c449b;
    assert r * 0x359c449b == x + k * WORD;
  }

  lemma UnitIsInjective(h: nat, k: nat, u: nat, v: nat)
    requires h < WORD && k < WORD && u < 0x1_0000 && v < 0x1_0000
    requires FnvUnit(h, u) == FnvUnit(k, v) && (h == k || u == v)
    ensures h == k && u == v
  {
    WordIsPow2();
    XorFits(h, u, 32);
    XorFits(k, v, 32);
    hide Xor, Pow2;
    TimesPrimeUndone(Xor(h, u));
    TimesPrimeUndone(Xor(k, v));
    XorUndone(h, u);
    XorUndone(k, v);
  }

  lemma {:induction false} UnequalStaysUnequal(a: seq<nat>, b: seq<nat>, after: seq<nat>)
    requires Fnv(a) != Fnv(b) && Units(after)
    ensures Fnv(a + after) != Fnv(b + after)
    decreases |after|
  {
    hide FnvUnit;
    if after == [] {
      assert a + after == a && b + after == b;
    } else {
      var front, last := after[..|after| - 1], after[|after| - 1];
      UnequalStaysUnequal(a, b, front);
      assert (a + after)[..|a + after| - 1] == a + front && (b + after)[..|b + after| - 1] == b + front;
      if Fnv(a + after) == Fnv(b + after) {
        UnitIsInjective(Fnv(a + front), Fnv(b + front), last, last);
      }
    }
  }

  function DigitValue(c: char): nat {
    if '0' <= c <= '9' then (c - '0') as nat else if 'a' <= c <= 'f' then (c - 'a') as nat + 10 else 0
  }

  function HexValue(s: string): nat {
    if s == "" then 0 else 16 * HexValue(s[..|s| - 1]) + DigitValue(s[|s| - 1])
  }

  lemma {:induction false} HexReadsBack(n: nat)
    ensures HexValue(Hex(n)) == n
  {
    DigitReadsBack(n % 16);
    hide HexDigit, DigitValue;
    if n >= 16 {
      HexReadsBack(n / 16);
      assert Hex(n)[..|Hex(n)| - 1] == Hex(n / 16);
    }
  }

  lemma DigitReadsBack(d: nat)
    requires d < 16
    ensures DigitValue(HexDigit(d)) == d
  {
  }

  lemma {:induction false} ZeroInFront(s: string)
    ensures HexValue("0" + s) == HexValue(s)
  {
    if s != "" {
      ZeroInFront(s[..|s| - 1]);
      assert ("0" + s)[..|s|] == "0" + s[..|s| - 1];
    }
  }

  lemma {:induction false} PaddingKeepsTheValue(s: string, width: nat)
    ensures HexValue(PadStart(s, width)) == HexValue(s)
    decreases width - |s|
  {
    if |s| < width {
      ZeroInFront(s);
      PaddingKeepsTheValue("0" + s, width);
    }
  }

  function Fingerprint(s: seq<nat>): string {
    PadStart(Hex(Fnv(s)), 8)
  }

  /** The printed fingerprint says no less than the 32-bit hash. */
  lemma FingerprintsAgreeIff(a: seq<nat>, b: seq<nat>)
    ensures Fingerprint(a) == Fingerprint(b) <==> Fnv(a) == Fnv(b)
  {
    PaddingKeepsTheValue(Hex(Fnv(a)), 8);
    PaddingKeepsTheValue(Hex(Fnv(b)), 8);
    HexReadsBack(Fnv(a));
    HexReadsBack(Fnv(b));
  }

  /** Two identities that differ in exactly one code unit, wherever it is, never share a fingerprint. */
  lemma OneUnitChangesTheFingerprint(before: seq<nat>, u: nat, v: nat, after: seq<nat>)
    requires u != v && u < 0x1_0000 && v < 0x1_0000 && Units(after)
    ensures Fingerprint(before + [u] + after) != Fingerprint(before + [v] + after)
  {
    hide FnvUnit, Fingerprint;
    assert (before + [u])[..|before|] == before && (before + [v])[..|before|] == before;
    if Fnv(before + [u]) == Fnv(before + [v]) {
      UnitIsInjective(Fnv(before), Fnv(before), u, v);
    }
    UnequalStaysUnequal(before + [u], before + [v], after);
    FingerprintsAgreeIff(before + [u] + after, before + [v] + after);
  }

  /** What is hashed: provider, model and rubric version, joined by NUL. */
  function Joined(provider: string, model: string, rubric: string): string {
    provider + "\0" + model + "\0" + rubric
  }

  predicate NoNul(s: string) {
    '\0' !in s
  }

  /** No field's tail can pass for the head of the next. */
  lemma JoinedIsInjective(p: string, m: string, r: string, p2: string, m2: string, r2: string)
    requires NoNul(p) && NoNul(m) && NoNul(p2) && NoNul(m2)
    requires Joined(p, m, r) == Joined(p2, m2, r2)
    ensures p == p2 && m == m2 && r == r2
  {
    assert Joined(p, m, r) == p + ("\0" + (m + "\0" + r)) && Joined(p2, m2, r2) == p2 + ("\0" + (m2 + "\0" + r2));
    FirstField(p, m + "\0" + r, p2, m2 + "\0" + r2);
    assert m + "\0" + r == m + ("\0" + r) && m2 + "\0" + r2 == m2 + ("\0" + r2);
    FirstField(m, r, m2, r2);
  }

  lemma FirstField(p: string, rest: string, p2: string, rest2: string)
    requires NoNul(p) && NoNul(p2)
    requires p + ("\0" + rest) == p2 + ("\0" + rest2)
    ensures p == p2 && rest == rest2
  {
    var nul := {'\0'};
    UntilStops(p, "\0" + rest, nul);
    UntilStops(p2, "\0" + rest2, nul);
    SamePrefix(p, "\0" + rest, p2, "\0" + rest2);
    assert ("\0" + rest)[1..] == rest && ("\0" + rest2)[1..] == rest2;
  }

  lemma SamePrefix(a: string, x: string, b: string, y: string)
    requires a + x == b + y && |a| == |b|
    ensures a == b && x == y
  {
    assert a == (a + x)[..|a|] && b == (b + y)[..|b|];
    assert x == (a + x)[|a|..] && y == (b + y)[|b|..];
  }

  // ---------------------------------------------------------------------------------------------
  // Printing
  // ---------------------------------------------------------------------------------------------

  /** An absent segment and an empty one print alike, so both read back as "". */
  function Text(segment: Option<string>): (s: string)
    ensures segment == Some(s) || (segment.None? && s == "")
  {
    if segment.Some? then segment.value else ""
  }

  function Mode(useLLM: bool): string {
    if useLLM then "llm" else "mock"
  }

  function MakeCacheKey(owner: string, repo: string, useLLM: bool, sha: Option<string>, fingerprint: string,
                        scope: Option<string>): string {
    var rev := if Text(sha) == "" then "" else "@" + Lower(Text(sha));
    var scoped := if Text(scope) == "" then "" else "!" + Text(scope);
    owner + "/" + repo + rev + scoped + "::" + Mode(useLLM) + "#" + fingerprint
  }

  // ---------------------------------------------------------------------------------------------
  // Reading a key back
  // ---------------------------------------------------------------------------------------------

  datatype Subject = Subject(owner: string, repo: string, sha: string, scope: string, useLLM: bool, fingerprint: string)

  /** Names first, then the revision up to '!', then the scope to the end. */
  function ReadSubject(s: string): (string, string, string, string) {
    var slash := Until(s, {'/'});
    var afterOwner := if slash < |s| then s[slash + 1..] else "";
    var mark := Until(afterOwner, {'@', '!'});
    var (sha, scope) := ReadTail(afterOwner[mark..]);
    (s[..slash], afterOwner[..mark], sha, scope)
  }

  function ReadTail(tail: string): (string, string) {
    var revEnd := if tail != "" && tail[0] == '@' then 1 + Until(tail[1..], {'!'}) else 0;
    (if revEnd == 0 then "" else tail[1..revEnd], if revEnd < |tail| then tail[revEnd + 1..] else "")
  }

  function ReadKey(key: string): Option<Subject> {
    if |key| < 15 then None
    else
      var fingerprint := key[|key| - 8..];
      var body := key[..|key| - 9];
      var useLLM := body[|body| - 5..] == "::llm";
      var subject := body[..|body| - (if useLLM then 5 else 6)];
      var (owner, repo, sha, scope) := ReadSubject(subject);
      Some(Subject(owner, repo, sha, scope, useLLM, fingerprint))
  }

  /** Normalised names carry none of the key's own separators. */
  predicate Name(s: string) {
    forall i :: 0 <= i < |s| ==> s[i] !in {'/', '@', '!', ':', '#'}
  }

  predicate HexText(s: string) {
    forall i :: 0 <= i < |s| ==> '0' <= s[i] <= '9' || 'a' <= s[i] <= 'f' || 'A' <= s[i] <= 'F'
  }

  lemma {:induction false} LowerOfHex(s: string)
    requires HexText(s)
    ensures forall i :: 0 <= i < |Lower(s)| ==> Lower(s)[i] != '!'
  {
    if s != "" {
      LowerOfHex(s[1..]);
      assert Lower(s)[1..] == Lower(s[1..]);
      assert forall i :: 1 <= i < |Lower(s)| ==> Lower(s)[i] == Lower(s[1..])[i - 1];
    }
  }

  /** A tail is an optional revision, then an optional scope, which may hold anything at all. */
  function Tail(rev: string, scope: string): string {
    (if rev == "" then "" else "@" + rev) + (if scope == "" then "" else "!" + scope)
  }

  lemma TailReadsBack(rev: string, scope: string)
    requires forall i :: 0 <= i < |rev| ==> rev[i] != '!'
    ensures ReadTail(Tail(rev, scope)) == (rev, scope)
    ensures Tail(rev, scope) == "" || Tail(rev, scope)[0] in {'@', '!'}
  {
    var tail := Tail(rev, scope);
    if rev != "" {
      var scopeText := if scope == "" then "" else "!" + scope;
      assert tail[1..] == rev + scopeText;
      UntilStops(rev, scopeText, {'!'});
      assert tail[1..1 + |rev|] == rev;
      assert scope != "" ==> tail[1 + |rev| + 1..] == scope;
    } else {
      assert scope != "" ==> tail[1..] == scope;
    }
  }

  lemma NamesReadBack(owner: string, repo: string, tail: string, s: string)
    requires Name(owner) && Name(repo) && (tail == "" || tail[0] in {'@', '!'})
    requires s == owner + ("/" + (repo + tail))
    ensures ReadSubject(s) == (owner, repo, ReadTail(tail).0, ReadTail(tail).1)
  {
    hide ReadTail;
    var afterOwner := repo + tail;
    UntilStops(owner, "/" + afterOwner, {'/'});
    assert s[..|owner|] == owner && s[|owner| + 1..] == afterOwner;
    UntilStops(repo, tail, {'@', '!'});
    assert afterOwner[..|repo|] == repo && afterOwner[|repo|..] == tail;
  }

  lemma KeyEndsReadBack(subject: string, useLLM: bool, fingerprint: string, key: string)
    requires |fingerprint| == 8 && |subject| >= 1
    requires key == subject + ("::" + Mode(useLLM) + "#" + fingerprint)
    ensures |key| >= 15
    ensures key[|key| - 8..] == fingerprint
    ensures
      var body := key[..|key| - 9];
      (body[|body| - 5..] == "::llm" <==> useLLM) && body[..|body| - (if useLLM then 5 else 6)] == subject
  {
    var body := subject + ("::" + Mode(useLLM));
    assert key == body + ("#" + fingerprint);
    assert key[..|key| - 9] == body;
    if !useLLM {
      assert body[|body| - 1] == 'k';
      assert body[|body| - 5..][4] == 'k';
      assert "::llm"[4] == 'm';
    } else {
      assert body[|body| - 5..] == "::llm";
    }
  }

  lemma SubjectReadsBack(subject: string, useLLM: bool, fingerprint: string)
    requires |fingerprint| == 8 && |subject| >= 1
    ensures
      var (owner, repo, sha, scope) := ReadSubject(subject);
      ReadKey(subject + ("::" + Mode(useLLM) + "#" + fingerprint)) == Some(Subject(owner, repo, sha, scope, useLLM, fingerprint))
  {
    hide ReadSubject, Mode;
    KeyEndsReadBack(subject, useLLM, fingerprint, subject + ("::" + Mode(useLLM) + "#" + fingerprint));
  }

  /**
   * A printed key reads back as its subject: owner and repository, the revision up to letter case, the
   * scope whatever it contains, the mode and the fingerprint.
   */
  lemma KeyReadsBack(owner: string, repo: string, useLLM: bool, sha: Option<string>, fingerprint: string, scope: Option<string>)
    requires Name(owner) && Name(repo) && HexText(Text(sha)) && |fingerprint| == 8
    ensures ReadKey(MakeCacheKey(owner, repo, useLLM, sha, fingerprint, scope))
         == Some(Subject(owner, repo, Lower(Text(sha)), Text(scope), useLLM, fingerprint))
  {
    hide Lower, HexText, Name, ReadKey, ReadSubject, ReadTail, MakeCacheKey, Tail, Text, Mode;
    var rev, tail := Lower(Text(sha)), Tail(Lower(Text(sha)), Text(scope));
    var subject := owner + ("/" + (repo + tail));
    KeyShape(owner, repo, useLLM, sha, fingerprint, scope);
    LowerOfHex(Text(sha));
    TailReadsBack(rev, Text(scope));
    NamesReadBack(owner, repo, tail, subject);
    SubjectReadsBack(subject, useLLM, fingerprint);
  }

  lemma KeyShape(owner: string, repo: string, useLLM: bool, sha: Option<string>, fingerprint: string, scope: Option<string>)
    ensures MakeCacheKey(owner, repo, useLLM, sha, fingerprint, scope)
         == owner + ("/" + (repo + Tail(Lower(Text(sha)), Text(scope)))) + ("::" + Mode(useLLM) + "#" + fingerprint)
  {
    hide Lower, Text, Mode;
    assert |Lower(Text(sha))| == |Text(sha)|;
    var rev := if Text(sha) == "" then "" else "@" + Lower(Text(sha));
    var scoped := if Text(scope) == "" then "" else "!" + Text(scope);
    assert Tail(Lower(Text(sha)), Text(scope)) == rev + scoped;
    Regroup(owner, repo, rev, scoped, Mode(useLLM), fingerprint);
  }

  lemma Regroup(owner: string, repo: string, rev: string, scoped: string, mode: string, fingerprint: string)
    ensures owner + "/" + repo + rev + scoped + "::" + mode + "#" + fingerprint
         == owner + ("/" + (repo + (rev + scoped))) + ("::" + mode + "#" + fingerprint)
  {
    assert owner + "/" + repo + rev + scoped == owner + ("/" + (repo + (rev + scoped)));
  }

  /** Equal keys have equal subjects; in particular a scoped entry never meets a whole-repository one. */
  lemma KeysCollideOnlyOnOneSubject(owner: string, repo: string, useLLM: bool, sha: Option<string>, fp: string, scope: Option<string>,
                                    owner2: string, repo2: string, useLLM2: bool, sha2: Option<string>, fp2: string, scope2: Option<string>)
    requires Name(owner) && Name(repo) && HexText(Text(sha)) && |fp| == 8
    requires Name(owner2) && Name(repo2) && HexText(Text(sha2)) && |fp2| == 8
    ensures MakeCacheKey(owner, repo, useLLM, sha, fp, scope) == MakeCacheKey(owner2, repo2, useLLM2, sha2, fp2, scope2) <==>
      && owner == owner2 && repo == repo2 && useLLM == useLLM2
      && Lower(Text(sha)) == Lower(Text(sha2)) && Text(scope) == Text(scope2) && fp == fp2
  {
    hide MakeCacheKey, ReadKey, Lower, HexText, Name;
    KeyReadsBack(owner, repo, useLLM, sha, fp, scope);
    KeyReadsBack(owner2, repo2, useLLM2, sha2, fp2, scope2);
    if owner == owner2 && repo == repo2 && useLLM == useLLM2 && Lower(Text(sha)) == Lower(Text(sha2))
       && Text(scope) == Text(scope2) && fp == fp2 {
      SameSubjectSameKey(owner, repo, useLLM, sha, fp, scope, sha2, scope2);
    }
  }

  lemma SameSubjectSameKey(owner: string, repo: string, useLLM: bool, sha: Option<string>, fp: string, scope: Option<string>,
                           sha2: Option<string>, scope2: Option<string>)
    requires Lower(Text(sha)) == Lower(Text(sha2)) && Text(scope) == Text(scope2)
    ensures MakeCacheKey(owner, repo, useLLM, sha, fp, scope) == MakeCacheKey(owner, repo, useLLM, sha2, fp, scope2)
  {
    assert |Lower(Text(sha))| == |Text(sha)| && |Lower(Text(sha2))| == |Text(sha2)|;
  }
}
