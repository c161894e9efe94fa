/** C strings, and the order of strcmp on them. */
module Strings {
  import opened JsonValue

  predicate IsCString(s: string) {
    NUL !in s
  }

  /** s[i], where a string ends in a NUL */
  function At(s: string, i: nat): char {
    if i < |s| then s[i] else NUL
  }

  /** strcmp(a, b) <= 0 */
  predicate Leq(a: string, b: string) {
    a == "" || (b != "" && (a[0] < b[0] || (a[0] == b[0] && Leq(a[1..], b[1..]))))
  }

  /** How many characters two strings have in common in front */
  function Common(a: string, b: string): (n: nat)
    ensures n <= |a| && n <= |b|
  {
    if a == "" || b == "" || a[0] != b[0] then 0 else 1 + Common(a[1..], b[1..])
  }

  lemma {:induction false} LeqReflexive(a: string)
    ensures Leq(a, a)
  {
    if a != "" { LeqReflexive(a[1..]); }
  }

  lemma {:induction false} LeqTransitive(a: string, b: string, c: string)
    requires Leq(a, b) && Leq(b, c)
    ensures Leq(a, c)
  {
    if a != "" && a[0] == b[0] == c[0] { LeqTransitive(a[1..], b[1..], c[1..]); }
  }

  lemma {:induction false} LeqTotal(a: string, b: string)
    ensures Leq(a, b) || Leq(b, a)
    ensures Leq(a, b) && Leq(b, a) ==> a == b
  {
    if a != "" && b != "" && a[0] == b[0] {
      LeqTotal(a[1..], b[1..]);
      assert a == [a[0]] + a[1..] && b == [b[0]] + b[1..];
    }
  }

  lemma {:induction false} CommonPrefix(a: string, b: string)
    ensures a[..Common(a, b)] == b[..Common(a, b)]
    ensures Common(a, b) < |a| && Common(a, b) < |b| ==> a[Common(a, b)] != b[Common(a, b)]
    ensures b <= a <==> Common(a, b) == |b|
  {
    if a != "" && b != "" && a[0] == b[0] {
      CommonPrefix(a[1..], b[1..]);
      assert a == [a[0]] + a[1..] && b == [b[0]] + b[1..];
    }
  }

  /** A prefix comes first. */
  lemma {:induction false} PrefixLeq(a: string, b: string)
    requires a <= b
    ensures Leq(a, b)
  {
    if a != "" { PrefixLeq(a[1..], b[1..]); }
  }

  /** Among strings that come no later than s, later ones have no less in common with it. */
  lemma {:induction false} CommonGrows(s: string, a: string, b: string)
    requires Leq(a, b) && Leq(b, s)
    ensures Common(s, a) <= Common(s, b)
  {
    if a != "" && s != "" && s[0] == a[0] { CommonGrows(s[1..], a[1..], b[1..]); }
  }

  /** Between two strings with a prefix there are only strings with that prefix. */
  lemma {:induction false} PrefixBetween(p: string, a: string, b: string)
    requires Leq(p, a) && Leq(a, b) && p <= b
    ensures p <= a
  {
    if p != "" {
      PrefixBetween(p[1..], a[1..], b[1..]);
      assert p == [p[0]] + p[1..] && a == [a[0]] + a[1..];
    }
  }

  /** strncmp(p, s, strlen(p)) == 0 */
  predicate StartsWith(s: string, p: string) {
    p <= s
  }

  ghost predicate Ascending(keys: seq<string>) {
    forall i, j :: 0 <= i <= j < |keys| ==> Leq(keys[i], keys[j])
  }
}
