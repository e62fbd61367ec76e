/** What several of the models share: an optional value, ASCII text, and the size of a subset. */
module Common {

  datatype Option<+T> = None | Some(value: T)

  /** `toLowerCase()` on ASCII text, which is what logins, repository names and commit hashes are. */
  function Lower(s: string): (r: string)
    ensures |r| == |s|
    ensures forall i :: 0 <= i < |s| ==> r[i] == if 'A' <= s[i] <= 'Z' then s[i] - 'A' + 'a' else s[i]
  {
    if s == [] then []
    else [if 'A' <= s[0] <= 'Z' then s[0] - 'A' + 'a' else s[0]] + Lower(s[1..])
  }

  lemma {:induction false} SubsetSize<T>(a: set<T>, b: set<T>)
    requires a <= b
    ensures |a| <= |b|
  {
    if a != {} {
      var x :| x in a;
      SubsetSize(a - {x}, b - {x});
    }
  }

  predicate FreeOf(s: string, stops: set<char>) {
    forall i :: 0 <= i < |s| ==> s[i] !in stops
  }

  /** Where the first of `stops` stands, or the end. */
  function Until(s: string, stops: set<char>): (n: nat)
    ensures n <= |s| && FreeOf(s[..n], stops) && (n < |s| ==> s[n] in stops)
  {
    if s == "" || s[0] in stops then 0 else 1 + Until(s[1..], stops)
  }

  lemma {:induction false} UntilIs(s: string, n: nat, stops: set<char>)
    requires n <= |s| && FreeOf(s[..n], stops) && (n < |s| ==> s[n] in stops)
    ensures Until(s, stops) == n
  {
    if n > 0 {
      assert s[0] == s[..n][0];
      assert s[1..][..n - 1] == s[..n][1..];
      UntilIs(s[1..], n - 1, stops);
    }
  }

  lemma UntilStops(prefix: string, rest: string, stops: set<char>)
    requires FreeOf(prefix, stops) && (rest == "" || rest[0] in stops)
    ensures Until(prefix + rest, stops) == |prefix|
  {
    assert (prefix + rest)[..|prefix|] == prefix;
    UntilIs(prefix + rest, |prefix|, stops);
  }
}
