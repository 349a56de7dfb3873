/** Shared result types and the few facts about floor division used everywhere. */
module Common {

  datatype Option<+T> = None | Some(value: T)

  datatype Result<+T, +E> = Ok(value: T) | Err(error: E)

  /** A strictly positive amount. */
  type Positive = n: nat | 0 < n witness 1

  lemma {:induction false} MulMono(a: int, b: int, c: int)
    requires a <= b && 0 <= c
    ensures a * c <= b * c && c * a <= c * b
  {
  }

  lemma {:induction false} Distribute(a: int, b: int, c: int)
    ensures (a + b) * c == a * c + b * c && c * (a + b) == c * a + c * b
  {
  }

  /** Adding one more part to a whole that is written as floors and remainders. */
  lemma {:induction false} FloorStep(x: nat, rest: nat, floors: int, remainders: int, d: Positive)
    requires rest == floors * d + remainders
    ensures x + rest == (x / d + floors) * d + (x % d + remainders)
  {
    Distribute(x / d, floors, d);
    FloorBounds(x, d);
  }

  /** Distinct multiples of `d` are at least `d` apart. */
  lemma {:induction false} MulGap(a: int, b: int, d: Positive)
    ensures a < b ==> a * d + d <= b * d
  {
    if a < b {
      MulMono(a + 1, b, d);
      assert (a + 1) * d == a * d + d;
    }
  }

  /** `a / d` is the one number whose multiple of `d` lies within `d` below `a`. */
  lemma {:induction false} FloorUnique(q: int, a: int, d: Positive)
    requires q * d <= a < q * d + d
    ensures a / d == q
  {
    FloorBounds(a, d);
    MulGap(q, a / d, d);
    MulGap(a / d, q, d);
  }

  lemma {:induction false} FloorBounds(a: int, d: Positive)
    ensures a / d * d <= a < a / d * d + d
    ensures a == a / d * d + a % d
    ensures 0 <= a ==> 0 <= a / d
  {
  }

  /** Flooring two parts loses at most one unit against flooring the whole. */
  lemma {:induction false} FloorAdd(a: nat, b: nat, d: Positive)
    ensures a / d + b / d <= (a + b) / d <= a / d + b / d + 1
  {
    var q := a / d + b / d;
    FloorBounds(a, d);
    FloorBounds(b, d);
    assert (a / d) * d + (b / d) * d == q * d;
    if a % d + b % d < d {
      FloorUnique(q, a + b, d);
    } else {
      assert (q + 1) * d == q * d + d;
      FloorUnique(q + 1, a + b, d);
    }
  }

  lemma {:induction false} FloorMono(a: int, b: int, d: Positive)
    requires a <= b
    ensures a / d <= b / d
  {
    FloorBounds(a, d);
    FloorBounds(b, d);
    MulGap(b / d, a / d, d);
  }

  /** Flooring an exact multiple loses nothing. */
  lemma {:induction false} FloorExact(q: int, d: Positive)
    ensures q * d / d == q && d * q / d == q
  {
    FloorUnique(q, q * d, d);
  }

  // ---------------------------------------------------------------- sequences

  lemma {:induction false} Snoc<T>(s: seq<T>, x: T)
    ensures s + [x] != [] && (s + [x])[..|s + [x]| - 1] == s && (s + [x])[|s + [x]| - 1] == x
  {
    assert (s + [x])[..|s|] == s;
  }

  /** Nothing is listed twice. */
  ghost predicate Distinct<T>(s: seq<T>) {
    forall i, j :: 0 <= i < j < |s| ==> s[i] != s[j]
  }

  function Without<T>(s: seq<T>, k: nat): seq<T>
    requires k < |s|
  {
    s[..k] + s[k + 1..]
  }

  lemma {:induction false} WithoutMembers<T>(s: seq<T>, k: nat)
    requires k < |s|
    ensures multiset(s) == multiset(Without(s, k)) + multiset{s[k]}
  {
    assert s == s[..k] + [s[k]] + s[k + 1..];
  }

  /** Dropping one shared element keeps two sequences permutations of each other. */
  lemma {:induction false} SameWithout<T>(s: seq<T>, t: seq<T>, j: nat, k: nat)
    requires j < |s| && k < |t| && s[j] == t[k] && multiset(s) == multiset(t)
    ensures multiset(Without(s, j)) == multiset(Without(t, k))
  {
    WithoutMembers(s, j);
    WithoutMembers(t, k);
    assert multiset(Without(s, j)) == multiset(s) - multiset{s[j]};
  }
}
