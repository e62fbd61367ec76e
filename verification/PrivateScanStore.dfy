/**
 * What may be stored of a private repository's scan: the report with every string copied out of a file
 * taken away. The scrub is also re-run over rows already stored, so a second pass must change nothing.
 */
module PrivateScanStore {
  import opened Common

  const DASH := '\U{2014}'
  const DOT := '\U{00B7}'
  const ELIDED_QUOTE := "\U{2026}"
  const RULE_DIVERGENCE := "rule: never vs always"

  // ---------------------------------------------------------------------------------------------
  // Evidence lines
  // ---------------------------------------------------------------------------------------------

  predicate Blank(c: char) {
    c in {' ', '\t', '\n', '\r', '\U{000B}', '\U{000C}', '\U{00A0}', '\U{FEFF}', '\U{1680}', '\U{2028}', '\U{2029}', '\U{202F}',
          '\U{205F}', '\U{3000}'}
    || '\U{2000}' <= c <= '\U{200A}'
  }

  /** The length of the "Model cited ", "Model reported " or "Model confirmed " the line opens with. */
  function Opening(line: string): (n: nat)
    ensures n <= |line|
    ensures n > 0 ==> n >= 12 && line[n - 1] == ' ' && FreeOf(line[..n], {DASH, '"'})
  {
    if "Model cited " <= line then 12
    else if "Model reported " <= line then 15
    else if "Model confirmed " <= line then 16
    else 0
  }

  datatype Claim = NoClaim | Claim(head: string, path: string, rest: string)

  const SEPARATOR := [' ', DASH, ' ']

  /** A claim line, as the pattern is written: an opening and facet, a dash, a path, and the opening quote. */
  predicate Reads(line: string, head: string, path: string, rest: string) {
    && line == head + SEPARATOR + path + ": \"" + rest
    && Opening(line) > 0 && |head| >= Opening(line)
    && FreeOf(head, {DASH, '"'})
    && path != "" && FreeOf(path, {'"'})
  }

  /** One left-to-right look: the first dash or quote ends the head, the first quote ends the path. */
  function MatchClaim(line: string): Claim {
    var n := Opening(line);
    if n == 0 then NoClaim
    else
      var d := n + Until(line[n..], {DASH, '"'});
      if d + 2 > |line| || line[d] != DASH || d < n + 1 || line[d - 1] != ' ' || line[d + 1] != ' ' then NoClaim
      else
        var q := d + 2 + Until(line[d + 2..], {'"'});
        if q >= |line| || q < d + 5 || line[q - 2] != ':' || line[q - 1] != ' ' then NoClaim
        else Claim(line[..d - 1], line[d + 2..q - 2], line[q + 1..])
  }

  /** How far a run of characters other than blanks and quotes reaches. */
  function Run(s: string): (n: nat)
    ensures n <= |s|
    ensures forall i :: 0 <= i < n ==> s[i] != '"' && !Blank(s[i])
    ensures n < |s| ==> s[n] == '"' || Blank(s[n])
  {
    if s == "" || s[0] == '"' || Blank(s[0]) then 0 else 1 + Run(s[1..])
  }

  /** A further citation opening right here: its path, and how much of the text it takes up. */
  function SecondHere(s: string): Option<(string, nat)> {
    if !(['"', ' ', DOT, ' '] <= s) then None
    else
      var n := Run(s[4..]);
      if n >= 2 && s[n + 3] == ':' && n + 5 < |s| && s[n + 4] == ' ' && s[n + 5] == '"' then Some((s[4..n + 3], n + 6))
      else None
  }

  /** Every further citation, left to right, none overlapping. */
  function Seconds(s: string): seq<string> {
    if s == "" then []
    else
      match SecondHere(s)
      case Some((path, n)) => if 0 < n <= |s| then [path] + Seconds(s[n..]) else []
      case None => Seconds(s[1..])
  }

  function StorableEvidenceLine(line: string): string {
    match MatchClaim(line)
    case NoClaim => line
    case Claim(head, path, rest) =>
      var seconds := Seconds(rest);
      head + SEPARATOR + path + (if |seconds| == 1 && seconds[0] != "" then [' ', DOT, ' '] + seconds[0] else "")
  }

  /** The pattern has at most one reading of a line, so the one look finds it, and finds it only then. */
  lemma ClaimReadsOneWay(line: string, head: string, path: string, rest: string)
    ensures Reads(line, head, path, rest) <==> MatchClaim(line) == Claim(head, path, rest)
  {
    if Reads(line, head, path, rest) {
      ReadIsMatched(line, head, path, rest);
    }
    if MatchClaim(line) == Claim(head, path, rest) {
      MatchedIsRead(line, head, path, rest);
    }
  }

  /** Where each piece of an assembled claim line stands. */
  lemma PiecesOf(head: string, path: string, rest: string, line: string)
    requires line == head + SEPARATOR + path + ": \"" + rest
    ensures |line| == |head| + 3 + |path| + 3 + |rest|
    ensures line[..|head|] == head && line[|head|] == ' ' && line[|head| + 1] == DASH && line[|head| + 2] == ' '
    ensures line[|head| + 3..|head| + 3 + |path|] == path
    ensures
      var q := |head| + 5 + |path|;
      line[q - 2] == ':' && line[q - 1] == ' ' && line[q] == '"' && line[q + 1..] == rest
  {
  }

  lemma Reassemble(line: string, h: nat, q: nat)
    requires h + 5 <= q < |line|
    requires line[h] == ' ' && line[h + 1] == DASH && line[h + 2] == ' ' && line[q - 2] == ':' && line[q - 1] == ' ' && line[q] == '"'
    ensures line == line[..h] + SEPARATOR + line[h + 3..q - 2] + ": \"" + line[q + 1..]
  {
    assert line[h..h + 3] == SEPARATOR;
    assert line[q - 2..q + 1] == ": \"";
    assert line == line[..h] + line[h..h + 3] + line[h + 3..q - 2] + line[q - 2..q + 1] + line[q + 1..];
  }

  lemma FreeJoined(a: string, b: string, stops: set<char>)
    ensures FreeOf(a + b, stops) <==> FreeOf(a, stops) && FreeOf(b, stops)
  {
    assert forall i :: 0 <= i < |a| ==> (a + b)[i] == a[i];
    assert forall i :: 0 <= i < |b| ==> (a + b)[|a| + i] == b[i];
  }

  lemma OpeningFree(line: string)
    ensures Opening(line) <= |line| && FreeOf(line[..Opening(line)], {DASH, '"'})
  {
  }

  lemma HeadEnds(line: string, head: string, n: nat)
    requires n <= |head| && |head| + 1 < |line| && line[..|head|] == head
    requires line[|head|] == ' ' && line[|head| + 1] == DASH && FreeOf(head, {DASH, '"'})
    ensures Until(line[n..], {DASH, '"'}) == |head| + 1 - n
  {
    hide Until;
    assert line[n..][..|head| + 1 - n] == head[n..] + " ";
    UntilIs(line[n..], |head| + 1 - n, {DASH, '"'});
  }

  lemma PathEnds(line: string, path: string, at: nat)
    requires at + |path| + 2 < |line| && line[at..at + |path|] == path && FreeOf(path, {'"'})
    requires line[at + |path|] == ':' && line[at + |path| + 1] == ' ' && line[at + |path| + 2] == '"'
    ensures Until(line[at..], {'"'}) == |path| + 2
  {
    hide Until;
    assert line[at..][..|path| + 2] == path + ": ";
    UntilIs(line[at..], |path| + 2, {'"'});
  }

  lemma ReadIsMatched(line: string, head: string, path: string, rest: string)
    requires Reads(line, head, path, rest)
    ensures MatchClaim(line) == Claim(head, path, rest)
  {
    hide Opening, Until, FreeOf;
    PiecesOf(head, path, rest, line);
    hide Reads;
    HeadEnds(line, head, Opening(line));
    PathEnds(line, path, |head| + 3);
  }

  lemma MatchedIsRead(line: string, head: string, path: string, rest: string)
    requires MatchClaim(line) == Claim(head, path, rest)
    ensures Reads(line, head, path, rest)
  {
    hide Opening, Until, FreeOf;
    var n := Opening(line);
    var d := n + Until(line[n..], {DASH, '"'});
    var q := d + 2 + Until(line[d + 2..], {'"'});
    Reassemble(line, d - 1, q);
    OpeningFree(line);
    FreeJoined(line[..n], line[n..][..d - n], {DASH, '"'});
    assert line[..n] + line[n..][..d - n] == head + " ";
    FreeJoined(head, " ", {DASH, '"'});
    assert line[d + 2..][..q - d - 2] == path + ": ";
    FreeJoined(path, ": ", {'"'});
  }

  lemma {:induction false} SecondsAreQuoteless(s: string)
    ensures forall k :: 0 <= k < |Seconds(s)| ==> FreeOf(Seconds(s)[k], {'"'})
  {
    if s != "" {
      match SecondHere(s) {
        case Some((path, n)) =>
          if 0 < n <= |s| {
            SecondsAreQuoteless(s[n..]);
            assert forall i :: 0 <= i < |path| ==> path[i] == s[4..][i];
          }
        case None =>
          SecondsAreQuoteless(s[1..]);
      }
    }
  }

  /** A line that matched comes out without a double quote; any other line comes out as it was. */
  lemma NoQuoteSurvives(line: string)
    ensures MatchClaim(line).Claim? ==> FreeOf(StorableEvidenceLine(line), {'"'})
    ensures MatchClaim(line).NoClaim? ==> StorableEvidenceLine(line) == line
  {
    hide MatchClaim, Opening, Seconds;
    var m := MatchClaim(line);
    if m.Claim? {
      ClaimReadsOneWay(line, m.head, m.path, m.rest);
      SecondsAreQuoteless(m.rest);
      QuotelessSum(m.head, SEPARATOR);
      QuotelessSum(m.head + SEPARATOR, m.path);
      var seconds := Seconds(m.rest);
      var second := if |seconds| == 1 && seconds[0] != "" then [' ', DOT, ' '] + seconds[0] else "";
      QuotelessSum(m.head + SEPARATOR + m.path, second);
    }
  }

  lemma QuotelessSum(a: string, b: string)
    requires FreeOf(a, {'"'}) && FreeOf(b, {'"'})
    ensures FreeOf(a + b, {'"'})
  {
  }

  lemma ClaimHasQuote(line: string)
    requires MatchClaim(line).Claim?
    ensures !FreeOf(line, {'"'})
  {
    hide MatchClaim, Opening;
    var m := MatchClaim(line);
    ClaimReadsOneWay(line, m.head, m.path, m.rest);
    PiecesOf(m.head, m.path, m.rest, line);
  }

  lemma QuotelessIsNoClaim(line: string)
    requires FreeOf(line, {'"'})
    ensures MatchClaim(line).NoClaim?
  {
    hide MatchClaim, FreeOf;
    if MatchClaim(line).Claim? {
      ClaimHasQuote(line);
    }
  }

  lemma EvidenceLineTwice(line: string)
    ensures StorableEvidenceLine(StorableEvidenceLine(line)) == StorableEvidenceLine(line)
  {
    hide MatchClaim;
    NoQuoteSurvives(line);
    if MatchClaim(line).Claim? {
      QuotelessIsNoClaim(StorableEvidenceLine(line));
    }
  }

  // ---- what becomes of the lines the renderer writes ---------------------------------------------

  lemma {:induction false} SecondsSkip(prefix: string, s: string)
    requires FreeOf(prefix, {'"'})
    ensures Seconds(prefix + s) == Seconds(s)
  {
    if prefix == "" {
      assert prefix + s == s;
    } else {
      assert (prefix + s)[0] != '"' && (prefix + s)[1..] == prefix[1..] + s;
      assert SecondHere(prefix + s).None?;
      SecondsSkip(prefix[1..], s);
    }
  }

  predicate RenderedHead(head: string) {
    Opening(head) > 0 && FreeOf(head, {DASH, '"'})
  }

  lemma OpeningOfLonger(head: string, more: string)
    requires Opening(head) > 0
    ensures Opening(head + more) == Opening(head)
  {
  }

  /** One citation: the stored line keeps the facet, the points and the path, and nothing of the quote. */
  lemma OneCitationIsElided(head: string, path: string, quote: string)
    requires RenderedHead(head) && path != "" && FreeOf(path, {'"'}) && FreeOf(quote, {'"'})
    ensures StorableEvidenceLine(head + SEPARATOR + path + ": \"" + (quote + "\"")) == head + SEPARATOR + path
  {
    hide Opening, MatchClaim;
    var line := head + SEPARATOR + path + ": \"" + (quote + "\"");
    assert line == head + (SEPARATOR + path + ": \"" + (quote + "\""));
    OpeningOfLonger(head, SEPARATOR + path + ": \"" + (quote + "\""));
    ClaimReadsOneWay(line, head, path, quote + "\"");
    SecondsSkip(quote, "\"");
    assert Seconds("\"") == [] by {
      assert SecondHere("\"").None?;
    }
  }

  lemma {:induction false} RunIs(s: string, n: nat)
    requires n < |s| && Blank(s[n])
    requires forall i :: 0 <= i < n ==> s[i] != '"' && !Blank(s[i])
    ensures Run(s) == n
  {
    if n > 0 {
      RunIs(s[1..], n - 1);
    }
  }

  lemma SecondIsFound(path: string, more: string)
    requires path != "" && forall i :: 0 <= i < |path| ==> path[i] != '"' && !Blank(path[i])
    ensures SecondHere(['"', ' ', DOT, ' '] + path + ": \"" + more) == Some((path, |path| + 7))
  {
    var s := ['"', ' ', DOT, ' '] + path + ": \"" + more;
    assert s[4..] == path + (": \"" + more);
    RunIs(s[4..], |path| + 1);
    assert s[4..|path| + 4] == path;
  }

  /** Two citations: both paths stay, and nothing of either quote. */
  lemma TwoCitationsAreElided(head: string, path: string, quote: string, path2: string, quote2: string)
    requires RenderedHead(head) && path != "" && FreeOf(path, {'"'}) && FreeOf(quote, {'"'}) && FreeOf(quote2, {'"'})
    requires path2 != "" && forall i :: 0 <= i < |path2| ==> path2[i] != '"' && !Blank(path2[i])
    ensures
      var rest := quote + (['"', ' ', DOT, ' '] + path2 + ": \"" + (quote2 + "\""));
      StorableEvidenceLine(head + SEPARATOR + path + ": \"" + rest) == head + SEPARATOR + path + ([' ', DOT, ' '] + path2)
  {
    hide Opening, MatchClaim, SecondHere;
    var second := ['"', ' ', DOT, ' '] + path2 + ": \"" + (quote2 + "\"");
    var rest := quote + second;
    var line := head + SEPARATOR + path + ": \"" + rest;
    assert line == head + (SEPARATOR + path + ": \"" + rest);
    OpeningOfLonger(head, SEPARATOR + path + ": \"" + rest);
    ClaimReadsOneWay(line, head, path, rest);
    SecondsSkip(quote, second);
    SecondIsFound(path2, quote2 + "\"");
    assert second[|path2| + 7..] == quote2 + "\"";
    SecondsSkip(quote2, "\"");
    SecondsOfQuote();
    assert Seconds(second) == [path2] + Seconds(quote2 + "\"");
  }

  lemma SecondsOfQuote()
    ensures Seconds("\"") == []
  {
    assert SecondHere("\"").None?;
    assert "\""[1..] == "";
  }

  // ---------------------------------------------------------------------------------------------
  // The rest of the report
  // ---------------------------------------------------------------------------------------------

  datatype Dimension = Dimension(id: string, score: int, evidence: seq<string>)

  datatype Node = Node(path: string, vendor: string, commands: seq<string>, rules: seq<string>)

  datatype Edge = Edge(kind: string, source: string, target: string, detail: string)

  datatype Side = Side(path: string, quote: string)

  datatype Contradiction = Contradiction(kind: string, subject: string, a: Side, b: Side)

  datatype Graph = Graph(nodes: seq<Node>, edges: seq<Edge>, contradictions: seq<Contradiction>, coherence: int)

  datatype Capability = Capability(name: string, verified: bool, command: string)

  datatype Manifest = Manifest(capabilities: seq<Capability>, purpose: Option<string>, neverTouch: seq<string>,
                               secretsFrom: Option<string>, placeholders: seq<string>, notes: seq<string>)

  datatype Report = Report(isPrivate: Option<bool>, forge: string, dimensions: seq<Dimension>, graph: Option<Graph>,
                           manifest: Option<Manifest>)

  /** A capability key derived from the runner verbs: a lower-case letter, then letters, digits and dashes. */
  predicate DerivedKey(s: string) {
    && s != "" && 'a' <= s[0] <= 'z'
    && forall i :: 0 <= i < |s| ==> 'a' <= s[i] <= 'z' || '0' <= s[i] <= '9' || s[i] == '-'
  }

  function StorableEdge(e: Edge): Edge {
    if e.kind != "diverges" then e
    else if "rule " <= e.detail || e.detail == RULE_DIVERGENCE then e.(detail := RULE_DIVERGENCE)
    else
      var key := e.detail[..Until(e.detail, {':'})];
      e.(detail := if DerivedKey(key) then key + ": commands differ" else "commands differ")
  }

  function Decimal(n: nat): string {
    if n < 10 then ["0123456789"[n]] else Decimal(n / 10) + ["0123456789"[n % 10]]
  }

  function StorableContradiction(c: Contradiction, i: nat): Contradiction {
    var subject := if c.kind == "command" && DerivedKey(c.subject) then c.subject else c.kind + " " + Decimal(i + 1);
    Contradiction(c.kind, subject, Side(c.a.path, ELIDED_QUOTE), Side(c.b.path, ELIDED_QUOTE))
  }

  function StorableGraph(g: Graph): Graph {
    Graph(seq(|g.nodes|, i requires 0 <= i < |g.nodes| => g.nodes[i].(commands := [], rules := [])),
          seq(|g.edges|, i requires 0 <= i < |g.edges| => StorableEdge(g.edges[i])),
          seq(|g.contradictions|, i requires 0 <= i < |g.contradictions| => StorableContradiction(g.contradictions[i], i)),
          g.coherence)
  }

  function Quoteless(notes: seq<string>): seq<string> {
    if notes == [] then []
    else (if '"' in notes[0] then [] else [notes[0]]) + Quoteless(notes[1..])
  }

  function StorableManifest(m: Manifest): Manifest {
    Manifest(seq(|m.capabilities|, i requires 0 <= i < |m.capabilities| => m.capabilities[i].(command := "")),
             None, m.neverTouch, None, [], Quoteless(m.notes))
  }

  function StorableDimension(d: Dimension): Dimension {
    d.(evidence := seq(|d.evidence|, i requires 0 <= i < |d.evidence| => StorableEvidenceLine(d.evidence[i])))
  }

  function StorableScanReport(r: Report): Report {
    if r.isPrivate != Some(true) then r
    else if r.forge == "local" then r
    else
      r.(dimensions := seq(|r.dimensions|, i requires 0 <= i < |r.dimensions| => StorableDimension(r.dimensions[i])),
         graph := if r.graph.Some? then Some(StorableGraph(r.graph.value)) else None,
         manifest := if r.manifest.Some? then Some(StorableManifest(r.manifest.value)) else None)
  }

  // ---------------------------------------------------------------------------------------------
  // Twice is once
  // ---------------------------------------------------------------------------------------------

  lemma EdgeTwice(e: Edge)
    ensures StorableEdge(StorableEdge(e)) == StorableEdge(e)
  {
    hide Until;
    if e.kind == "diverges" && !("rule " <= e.detail) && e.detail != RULE_DIVERGENCE {
      var key := e.detail[..Until(e.detail, {':'})];
      if DerivedKey(key) {
        DerivedDetailStays(e.(detail := key + ": commands differ"), key);
      } else {
        PlainDetailStays(e.(detail := "commands differ"));
      }
    }
  }

  lemma DerivedDetailStays(e: Edge, key: string)
    requires e.kind == "diverges" && DerivedKey(key) && e.detail == key + ": commands differ"
    ensures StorableEdge(e) == e
  {
    hide Until;
    DerivedIsNoRule(key, e.detail);
    assert e.detail[|key|] == ':' && e.detail[..|key|] == key;
    UntilIs(e.detail, |key|, {':'});
  }

  lemma PlainDetailStays(e: Edge)
    requires e.kind == "diverges" && e.detail == "commands differ"
    ensures StorableEdge(e) == e
  {
    hide Until;
    assert e.detail[..15] == e.detail;
    UntilIs(e.detail, 15, {':'});
    assert e.detail[8] == ' ';
  }

  /** What the scrub writes for a command never opens like a rule line, and is not the rule line itself. */
  lemma DerivedIsNoRule(key: string, detail: string)
    requires DerivedKey(key) && detail == key + ": commands differ"
    ensures !("rule " <= detail) && detail != RULE_DIVERGENCE
  {
    if |key| > 4 {
      assert detail[4] == key[4];
    } else {
      assert detail[|key|] == ':';
    }
    assert detail[|detail| - 1] == 'r';
  }

  /** Of a diverging command only its derived key stays, whatever was written after the colon. */
  lemma CommandEdgeKeepsItsKey(e: Edge, key: string, rest: string)
    requires e.kind == "diverges" && DerivedKey(key) && e.detail == key + ":" + rest && e.detail != RULE_DIVERGENCE
    ensures StorableEdge(e) == e.(detail := key + ": commands differ")
  {
    hide Until;
    assert e.detail[|key|] == ':' && e.detail[..|key|] == key;
    UntilIs(e.detail, |key|, {':'});
    if |key| > 4 {
      assert e.detail[4] == key[4];
    }
  }

  /** Whatever a diverging edge said, what is stored comes from a fixed vocabulary or opens with a derived key. */
  lemma EdgesSpeakAFixedVocabulary(e: Edge)
    ensures e.kind != "diverges" ==> StorableEdge(e) == e
    ensures e.kind == "diverges" ==>
      var stored := StorableEdge(e);
      && stored == e.(detail := stored.detail)
      && (stored.detail == RULE_DIVERGENCE || stored.detail == "commands differ"
          || exists key :: DerivedKey(key) && key <= e.detail && stored.detail == key + ": commands differ")
      && (forall subject: string :: e.detail == "rule " + subject ==> stored.detail == RULE_DIVERGENCE)
  {
    hide Until;
    if e.kind == "diverges" && !("rule " <= e.detail) && e.detail != RULE_DIVERGENCE {
      var key := e.detail[..Until(e.detail, {':'})];
      assert key <= e.detail;
      assert DerivedKey(key) ==> StorableEdge(e).detail == key + ": commands differ";
    }
    assert forall subject: string :: "rule " <= "rule " + subject;
  }

  lemma ContradictionTwice(c: Contradiction, i: nat)
    ensures StorableContradiction(StorableContradiction(c, i), i) == StorableContradiction(c, i)
  {
    var numbered := c.kind + " " + Decimal(i + 1);
    assert numbered[|c.kind|] == ' ';
  }

  predicate Digits(s: string) {
    forall i :: 0 <= i < |s| ==> '0' <= s[i] <= '9'
  }

  lemma {:induction false} DecimalIsDigits(n: nat)
    ensures Digits(Decimal(n)) && |Decimal(n)| >= 1
  {
    if n >= 10 {
      DecimalIsDigits(n / 10);
    }
  }

  lemma {:induction false} DecimalIsInjective(m: nat, n: nat)
    requires Decimal(m) == Decimal(n)
    ensures m == n
  {
    var a, b := Decimal(m), Decimal(n);
    assert a[|a| - 1] == b[|b| - 1];
    if m >= 10 && n >= 10 {
      assert a[..|a| - 1] == Decimal(m / 10) && b[..|b| - 1] == Decimal(n / 10);
      DecimalIsInjective(m / 10, n / 10);
    } else if m >= 10 {
      DecimalIsDigits(m / 10);
    } else if n >= 10 {
      DecimalIsDigits(n / 10);
    }
  }

  /** Numbered subjects never clash, so a reader that keys rows by kind and subject sees every one of them. */
  lemma NumberedSubjectsAreDistinct(kind: string, i: nat, j: nat)
    requires kind + " " + Decimal(i + 1) == kind + " " + Decimal(j + 1)
    ensures i == j
  {
    var a, b := kind + " " + Decimal(i + 1), kind + " " + Decimal(j + 1);
    assert a[|kind| + 1..] == Decimal(i + 1) && b[|kind| + 1..] == Decimal(j + 1);
    DecimalIsInjective(i + 1, j + 1);
  }

  /** Two contradictions share a stored kind and subject only if both are commands of one derived key. */
  lemma StoredSubjectsAreDistinct(g: Graph, i: nat, j: nat)
    requires i < j < |g.contradictions|
    requires
      var s := StorableGraph(g).contradictions;
      s[i].kind == s[j].kind && s[i].subject == s[j].subject
    ensures g.contradictions[i].kind == "command" && DerivedKey(g.contradictions[i].subject)
    ensures g.contradictions[j].subject == g.contradictions[i].subject
  {
    var c, d := g.contradictions[i], g.contradictions[j];
    var ci, dj := c.kind + " " + Decimal(i + 1), d.kind + " " + Decimal(j + 1);
    assert ci[|c.kind|] == ' ' && dj[|d.kind|] == ' ';
    if ci == dj && c.kind == d.kind {
      NumberedSubjectsAreDistinct(c.kind, i, j);
    }
  }

  lemma GraphTwice(g: Graph)
    ensures StorableGraph(StorableGraph(g)) == StorableGraph(g)
  {
    hide StorableEdge, StorableContradiction;
    var once := StorableGraph(g);
    var twice := StorableGraph(once);
    forall i | 0 <= i < |g.edges|
      ensures twice.edges[i] == once.edges[i]
    {
      EdgeTwice(g.edges[i]);
    }
    forall i | 0 <= i < |g.contradictions|
      ensures twice.contradictions[i] == once.contradictions[i]
    {
      ContradictionTwice(g.contradictions[i], i);
    }
    assert twice.nodes == once.nodes && twice.edges == once.edges && twice.contradictions == once.contradictions;
  }

  lemma {:induction false} QuotelessTwice(notes: seq<string>)
    ensures Quoteless(Quoteless(notes)) == Quoteless(notes)
    ensures forall n :: n in Quoteless(notes) <==> n in notes && '"' !in n
  {
    if notes != [] {
      QuotelessTwice(notes[1..]);
      var rest := Quoteless(notes[1..]);
      if '"' in notes[0] {
        assert Quoteless(notes) == rest;
      } else {
        assert Quoteless(notes) == [notes[0]] + rest;
        assert ([notes[0]] + rest)[1..] == rest;
      }
    }
  }

  lemma ManifestTwice(m: Manifest)
    ensures StorableManifest(StorableManifest(m)) == StorableManifest(m)
  {
    QuotelessTwice(m.notes);
    assert StorableManifest(StorableManifest(m)).capabilities == StorableManifest(m).capabilities;
  }

  lemma DimensionTwice(d: Dimension)
    ensures StorableDimension(StorableDimension(d)) == StorableDimension(d)
  {
    hide StorableEvidenceLine;
    var once := StorableDimension(d);
    forall i | 0 <= i < |d.evidence|
      ensures StorableDimension(once).evidence[i] == once.evidence[i]
    {
      EvidenceLineTwice(d.evidence[i]);
    }
    assert StorableDimension(once).evidence == once.evidence;
  }

  /** On every report a second pass changes nothing. */
  lemma ScrubTwiceIsOnce(r: Report)
    ensures StorableScanReport(StorableScanReport(r)) == StorableScanReport(r)
  {
    hide StorableDimension, StorableGraph, StorableManifest;
    var once := StorableScanReport(r);
    if r.isPrivate == Some(true) && r.forge != "local" {
      forall i | 0 <= i < |r.dimensions|
        ensures StorableScanReport(once).dimensions[i] == once.dimensions[i]
      {
        DimensionTwice(r.dimensions[i]);
      }
      assert StorableScanReport(once).dimensions == once.dimensions;
      if r.graph.Some? {
        GraphTwice(r.graph.value);
      }
      if r.manifest.Some? {
        ManifestTwice(r.manifest.value);
      }
    }
  }

  /** Nothing copied out of a file, as far as each store can hold it. */
  predicate Clean(r: Report) {
    && (forall i, j :: 0 <= i < |r.dimensions| && 0 <= j < |r.dimensions[i].evidence| ==>
          MatchClaim(r.dimensions[i].evidence[j]).NoClaim?)
    && (r.graph.Some? ==>
          && (forall i :: 0 <= i < |r.graph.value.nodes| ==> r.graph.value.nodes[i].commands == [] && r.graph.value.nodes[i].rules == [])
          && (forall i :: 0 <= i < |r.graph.value.contradictions| ==>
                r.graph.value.contradictions[i].a.quote == ELIDED_QUOTE && r.graph.value.contradictions[i].b.quote == ELIDED_QUOTE))
    && (r.manifest.Some? ==>
          && (forall i :: 0 <= i < |r.manifest.value.capabilities| ==> r.manifest.value.capabilities[i].command == "")
          && r.manifest.value.purpose.None? && r.manifest.value.secretsFrom.None? && r.manifest.value.placeholders == []
          && (forall i :: 0 <= i < |r.manifest.value.notes| ==> '"' !in r.manifest.value.notes[i]))
  }

  /** A public or a local report is stored as it is; any other private one is stored clean, counts and paths kept. */
  lemma StoredCleanOrUntouched(r: Report)
    ensures r.isPrivate != Some(true) || r.forge == "local" ==> StorableScanReport(r) == r
    ensures r.isPrivate == Some(true) && r.forge != "local" ==> Clean(StorableScanReport(r))
    ensures
      var s := StorableScanReport(r);
      && |s.dimensions| == |r.dimensions|
      && (forall i :: 0 <= i < |r.dimensions| ==>
            s.dimensions[i].score == r.dimensions[i].score && |s.dimensions[i].evidence| == |r.dimensions[i].evidence|)
      && (r.graph.Some? <==> s.graph.Some?)
      && (r.graph.Some? ==> |s.graph.value.contradictions| == |r.graph.value.contradictions|)
  {
    hide MatchClaim, StorableEvidenceLine, StorableEdge;
    if r.isPrivate == Some(true) && r.forge != "local" {
      var s := StorableScanReport(r);
      forall i, j | 0 <= i < |s.dimensions| && 0 <= j < |s.dimensions[i].evidence|
        ensures MatchClaim(s.dimensions[i].evidence[j]).NoClaim?
      {
        StoredLineIsNoClaim(r.dimensions[i].evidence[j]);
      }
      if r.manifest.Some? {
        QuotelessTwice(r.manifest.value.notes);
        assert forall i :: 0 <= i < |s.manifest.value.notes| ==> s.manifest.value.notes[i] in s.manifest.value.notes;
      }
    }
  }

  /** What the scrub keeps: paths, vendors, kinds, endpoints, capability facts, every count and every order. */
  lemma StructureIsKept(r: Report)
    ensures
      var s := StorableScanReport(r);
      && s.isPrivate == r.isPrivate && s.forge == r.forge
      && (r.graph.Some? ==> s.graph.Some? && SameShape(r.graph.value, s.graph.value))
      && (r.manifest.Some? ==>
            && s.manifest.Some?
            && s.manifest.value.neverTouch == r.manifest.value.neverTouch
            && (r.isPrivate == Some(true) && r.forge != "local" ==>
                  forall n :: n in s.manifest.value.notes <==> n in r.manifest.value.notes && '"' !in n)
            && |s.manifest.value.capabilities| == |r.manifest.value.capabilities|
            && forall i :: 0 <= i < |r.manifest.value.capabilities| ==>
                 && s.manifest.value.capabilities[i].name == r.manifest.value.capabilities[i].name
                 && s.manifest.value.capabilities[i].verified == r.manifest.value.capabilities[i].verified)
  {
    hide StorableEvidenceLine, DerivedKey, Decimal, Until, Quoteless;
    if r.manifest.Some? {
      NotesKept(r.manifest.value);
    }
  }

  lemma NotesKept(m: Manifest)
    ensures forall n :: n in StorableManifest(m).notes <==> n in m.notes && '"' !in n
  {
    QuotelessTwice(m.notes);
  }

  predicate SameShape(g: Graph, h: Graph) {
    && h.coherence == g.coherence
    && |h.nodes| == |g.nodes| && |h.edges| == |g.edges| && |h.contradictions| == |g.contradictions|
    && (forall i :: 0 <= i < |g.nodes| ==> h.nodes[i].path == g.nodes[i].path && h.nodes[i].vendor == g.nodes[i].vendor)
    && (forall i :: 0 <= i < |g.edges| ==>
          h.edges[i].kind == g.edges[i].kind && h.edges[i].source == g.edges[i].source && h.edges[i].target == g.edges[i].target)
    && (forall i :: 0 <= i < |g.contradictions| ==>
          && h.contradictions[i].kind == g.contradictions[i].kind
          && h.contradictions[i].a.path == g.contradictions[i].a.path && h.contradictions[i].b.path == g.contradictions[i].b.path)
  }

  /**
   * What becomes of each evidence line of a private report: one that reads as a claim keeps its head and
   * its path and loses every quote, and any other stays as it is.
   */
  lemma EachLineIsElided(r: Report, i: nat, j: nat)
    requires r.isPrivate == Some(true) && r.forge != "local"
    requires i < |r.dimensions| && j < |r.dimensions[i].evidence|
    ensures
      var s := StorableScanReport(r);
      && |s.dimensions| == |r.dimensions| && s.dimensions[i] == r.dimensions[i].(evidence := s.dimensions[i].evidence)
      && |s.dimensions[i].evidence| == |r.dimensions[i].evidence|
      && var line, stored := r.dimensions[i].evidence[j], s.dimensions[i].evidence[j];
         && (forall head, path, rest :: Reads(line, head, path, rest) ==>
               head + SEPARATOR + path <= stored && FreeOf(stored, {'"'}))
         && ((forall head, path, rest :: !Reads(line, head, path, rest)) ==> stored == line)
  {
    hide MatchClaim, Reads, Opening, Seconds, FreeOf;
    var line := r.dimensions[i].evidence[j];
    NoQuoteSurvives(line);
    forall head, path, rest | Reads(line, head, path, rest)
      ensures MatchClaim(line) == Claim(head, path, rest)
    {
      ClaimReadsOneWay(line, head, path, rest);
    }
    if MatchClaim(line).Claim? {
      var m := MatchClaim(line);
      ClaimReadsOneWay(line, m.head, m.path, m.rest);
    }
  }

  /** The three openings there are: a line opens a claim exactly when it starts with one of them. */
  lemma OpeningsAre(line: string)
    ensures Opening(line) > 0 <==> "Model cited " <= line || "Model reported " <= line || "Model confirmed " <= line
    ensures Opening(line) > 0 ==> var n := Opening(line);
      line[..n] == "Model cited " || line[..n] == "Model reported " || line[..n] == "Model confirmed "
  {
  }

  lemma RenderedHeadIs(facet: string)
    requires FreeOf(facet, {DASH, '"'})
    ensures RenderedHead("Model cited " + facet) && RenderedHead("Model reported " + facet) && RenderedHead("Model confirmed " + facet)
  {
    OpeningsAre("Model cited " + facet);
    OpeningsAre("Model reported " + facet);
    OpeningsAre("Model confirmed " + facet);
  }

  /** A derived key is a lower-case letter and then any number of lower-case letters, digits and dashes. */
  lemma DerivedKeyIff(s: string)
    ensures DerivedKey(s) <==>
      |s| >= 1 && s[0] in LOWER_CASE && forall i :: 0 <= i < |s| ==> s[i] in LOWER_CASE || s[i] in "0123456789-"
  {
    forall c: char
      ensures c in LOWER_CASE <==> 'a' <= c <= 'z'
    {
      if 'a' <= c <= 'z' {
        assert LOWER_CASE[c as int - 97] == c;
      }
    }
    forall c: char
      ensures c in "0123456789-" <==> '0' <= c <= '9' || c == '-'
    {
      if '0' <= c <= '9' {
        assert "0123456789-"[c as int - 48] == c;
      } else if c == '-' {
        assert "0123456789-"[10] == c;
      }
    }
  }

  const LOWER_CASE := "abcdefghijklmnopqrstuvwxyz"

  /** The value a decimal text stands for. */
  function DecimalValue(s: string): nat {
    if s == "" then 0 else 10 * DecimalValue(s[..|s| - 1]) + (if '0' <= s[|s| - 1] <= '9' then (s[|s| - 1] - '0') as nat else 0)
  }

  lemma {:induction false} DecimalReadsBack(n: nat)
    ensures DecimalValue(Decimal(n)) == n
  {
    if n >= 10 {
      DecimalReadsBack(n / 10);
      assert Decimal(n)[..|Decimal(n)| - 1] == Decimal(n / 10);
    }
  }

  /** A stored contradiction keeps a command's derived key; any other subject is its kind and its place from one on. */
  lemma SubjectIsKeyOrPlace(g: Graph, i: nat)
    requires i < |g.contradictions|
    ensures
      var c, stored := g.contradictions[i], StorableGraph(g).contradictions[i];
      if c.kind == "command" && DerivedKey(c.subject) then stored.subject == c.subject
      else
        exists place: string :: stored.subject == c.kind + " " + place && DecimalValue(place) == i + 1
  {
    DecimalReadsBack(i + 1);
  }

  lemma StoredLineIsNoClaim(line: string)
    ensures MatchClaim(StorableEvidenceLine(line)).NoClaim?
  {
    hide MatchClaim;
    NoQuoteSurvives(line);
    if MatchClaim(line).Claim? {
      QuotelessIsNoClaim(StorableEvidenceLine(line));
    }
  }
}
