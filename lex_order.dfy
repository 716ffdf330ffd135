/** Python's ordering of `str` values (code point by code point, a proper
    prefix first) and the `sorted` built-in over a list of strings. */
module LexOrder {

  /** `a < b` on Python strings. */
  predicate Below(a: string, b: string)
    decreases |a|
  {
    if |a| == 0 then |b| > 0
    else if |b| == 0 then false
    else if a[0] == b[0] then Below(a[1..], b[1..])
    else a[0] < b[0]
  }

  lemma {:induction false} BelowIrreflexive(a: string)
    ensures !Below(a, a)
    decreases |a|
  {
    if |a| > 0 {
      BelowIrreflexive(a[1..]);
    }
  }

  lemma {:induction false} BelowTransitive(a: string, b: string, c: string)
    requires Below(a, b) && Below(b, c)
    ensures Below(a, c)
    decreases |a|
  {
    if |a| > 0 && a[0] == b[0] && b[0] == c[0] {
      BelowTransitive(a[1..], b[1..], c[1..]);
    }
  }

  lemma {:induction false} BelowTrichotomy(a: string, b: string)
    ensures a == b || Below(a, b) || Below(b, a)
    decreases |a|
  {
    if |a| > 0 && |b| > 0 && a[0] == b[0] {
      BelowTrichotomy(a[1..], b[1..]);
      if a[1..] == b[1..] {
        assert a == [a[0]] + a[1..] && b == [b[0]] + b[1..];
      }
    }
  }

  lemma BelowAsymmetric(a: string, b: string)
    requires Below(a, b)
    ensures !Below(b, a)
  {
    if Below(b, a) {
      BelowTransitive(a, b, a);
      BelowIrreflexive(a);
    }
  }

  /** `a <= b` is transitive. */
  lemma AtMostTransitive(a: string, b: string, c: string)
    requires !Below(b, a) && !Below(c, b)
    ensures !Below(c, a)
  {
    BelowTrichotomy(a, b);
    BelowTrichotomy(b, c);
    if a != b && b != c {
      BelowTransitive(a, b, c);
      BelowAsymmetric(a, c);
    }
  }

  /** Non-decreasing in Python's string order. */
  ghost predicate Ascending(s: seq<string>) {
    forall i, j :: 0 <= i < j < |s| ==> !Below(s[j], s[i])
  }

  /** Strictly increasing in Python's string order. */
  ghost predicate StrictlyAscending(s: seq<string>) {
    forall i, j :: 0 <= i < j < |s| ==> Below(s[i], s[j])
  }

  /** Puts `x` in front of the first element of `xs` that is not below it. */
  function Insert(x: string, xs: seq<string>): (r: seq<string>)
    ensures multiset(r) == multiset(xs) + multiset{x}
    ensures Ascending(xs) ==> Ascending(r)
  {
    if xs == [] || !Below(xs[0], x) then
      var r := [x] + xs;
      assert Ascending(xs) ==> Ascending(r) by {
        if Ascending(xs) && xs != [] {
          forall j | 0 < j < |r| ensures !Below(r[j], x) {
            if j > 1 { AtMostTransitive(x, xs[0], xs[j - 1]); }
          }
        }
      }
      r
    else
      var rest := Insert(x, xs[1..]);
      var r := [xs[0]] + rest;
      assert xs == [xs[0]] + xs[1..];
      assert Ascending(xs) ==> Ascending(r) by {
        if Ascending(xs) {
          BelowAsymmetric(xs[0], x);
          forall j | 0 < j < |r| ensures !Below(r[j], xs[0]) {
            assert r[j] in multiset(rest);
            if r[j] != x {
              assert r[j] in xs[1..];
            }
          }
        }
      }
      r
  }

  /** Python's `sorted` on a list of strings. */
  function Sorted(xs: seq<string>): (r: seq<string>)
    ensures multiset(r) == multiset(xs)
    ensures Ascending(r)
  {
    if xs == [] then [] else
      assert xs == [xs[0]] + xs[1..];
      Insert(xs[0], Sorted(xs[1..]))
  }

  /** A sorted list of distinct strings is strictly increasing. */
  lemma DistinctAscendingIsStrict(s: seq<string>)
    requires Ascending(s)
    requires forall i, j :: 0 <= i < j < |s| ==> s[i] != s[j]
    ensures StrictlyAscending(s)
  {
    forall i, j | 0 <= i < j < |s| ensures Below(s[i], s[j]) {
      BelowTrichotomy(s[i], s[j]);
    }
  }
}
