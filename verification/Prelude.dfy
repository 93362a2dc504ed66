/** Shared vocabulary: identifiers, results, and sums over sequences and sets. */
module Prelude {

  /** Row identifiers (UUID strings). Strings compare by code unit, as `<` does in the source. */
  type Id = string

  datatype Option<+T> = None | Some(value: T)

  /** The domain error taxonomy; only the cap error carries data that a property below speaks about. */
  datatype Error =
    | Conflict
    | Forbidden
    | NotFound
    | Validation
    | Invariant
    | Overpayment
    | CapExceeded(remainingBp: int)
    | Archived
    | RangeError
    | UniqueViolation
    | ForeignKeyViolation

  datatype Result<+T> = Ok(value: T) | Err(error: Error)

  /** 100% in basis points. */
  const FULL_BP := 10000

  datatype PeriodLength = WEEKLY | MONTHLY | QUARTERLY | YEARLY

  // --- lexicographic order on identifiers ---------------------------------------------------

  predicate LexLess(a: Id, b: Id) {
    if b == [] then false
    else if a == [] then true
    else if a[0] != b[0] then a[0] < b[0]
    else LexLess(a[1..], b[1..])
  }

  lemma {:induction false} LexLessIrreflexive(a: Id)
    ensures !LexLess(a, a)
  {
    if a != [] {
      LexLessIrreflexive(a[1..]);
    }
  }

  lemma {:induction false} LexLessTransitive(a: Id, b: Id, c: Id)
    requires LexLess(a, b) && LexLess(b, c)
    ensures LexLess(a, c)
  {
    if a != [] && a[0] == b[0] == c[0] {
      LexLessTransitive(a[1..], b[1..], c[1..]);
    }
  }

  /** Exactly one of a < b, a == b, b < a holds: ties between distinct identifiers are always broken. */
  lemma {:induction false} LexLessTotal(a: Id, b: Id)
    ensures a == b || LexLess(a, b) || LexLess(b, a)
    ensures !(LexLess(a, b) && LexLess(b, a))
  {
    if a != [] && b != [] && a[0] == b[0] {
      LexLessTotal(a[1..], b[1..]);
      assert a == [a[0]] + a[1..] && b == [b[0]] + b[1..];
    }
  }

  /** The first position where two strings part: one has ended, or the characters differ. */
  ghost predicate PartsAt(a: Id, b: Id, k: nat) {
    && k <= |a| && k <= |b| && a[..k] == b[..k]
    && (k < |a| && k < |b| ==> a[k] != b[k])
  }

  /** The order is the dictionary order: at the first difference, the shorter or the smaller comes first. */
  lemma {:induction false} LexLessMeaning(a: Id, b: Id, k: nat)
    requires PartsAt(a, b, k)
    ensures LexLess(a, b) <==> k < |b| && (k == |a| || a[k] < b[k])
  {
    if k > 0 {
      assert a[0] == a[..k][0] == b[..k][0] == b[0];
      assert a[1..][..k - 1] == a[..k][1..] == b[..k][1..] == b[1..][..k - 1];
      LexLessMeaning(a[1..], b[1..], k - 1);
    }
  }

  function Least(a: int, b: int): int { if a < b then a else b }

  function Elements<T>(xs: seq<T>): set<T> { set x | x in xs }

  lemma NoElements<T>(xs: seq<T>)
    ensures Elements(xs[..0]) == {}
  {
  }

  lemma ElementsGrow<T>(xs: seq<T>, i: nat)
    requires i < |xs|
    ensures Elements(xs[..i + 1]) == Elements(xs[..i]) + {xs[i]}
  {
    assert xs[..i + 1] == xs[..i] + [xs[i]];
  }

  lemma MulMonotone(a: int, b: int, w: int)
    requires w > 0
    ensures a <= b ==> a * w <= b * w
  {
  }

  // --- sums over sequences ------------------------------------------------------------------

  /** The sum of `f` over the elements of `xs`. */
  function Total<T>(xs: seq<T>, f: T -> int): int {
    if xs == [] then 0 else f(xs[0]) + Total(xs[1..], f)
  }

  lemma {:induction false} TotalConcat<T>(xs: seq<T>, ys: seq<T>, f: T -> int)
    ensures Total(xs + ys, f) == Total(xs, f) + Total(ys, f)
  {
    if xs == [] {
      assert xs + ys == ys;
    } else {
      assert (xs + ys)[1..] == xs[1..] + ys;
      TotalConcat(xs[1..], ys, f);
    }
  }

  lemma TotalSnoc<T>(xs: seq<T>, x: T, f: T -> int)
    ensures Total(xs + [x], f) == Total(xs, f) + f(x)
  {
    TotalConcat(xs, [x], f);
    assert Total([x], f) == f(x) + Total([], f);
  }

  lemma {:induction false} TotalSplit<T>(xs: seq<T>, k: nat, f: T -> int)
    requires k < |xs|
    ensures Total(xs, f) == f(xs[k]) + Total(xs[..k] + xs[k + 1..], f)
  {
    var rest := xs[..k] + xs[k + 1..];
    if k == 0 {
      assert rest == xs[1..];
    } else {
      TotalSplit(xs[1..], k - 1, f);
      assert rest[1..] == xs[1..][..k - 1] + xs[1..][k..];
    }
  }

  lemma MultisetRemoveAt<T>(xs: seq<T>, k: nat)
    requires k < |xs|
    ensures multiset(xs[..k] + xs[k + 1..]) == multiset(xs) - multiset{xs[k]}
  {
    assert xs == xs[..k] + [xs[k]] + xs[k + 1..];
  }

  lemma PermutationLength<T>(xs: seq<T>, ys: seq<T>)
    requires multiset(xs) == multiset(ys)
    ensures |xs| == |ys|
  {
    assert |multiset(xs)| == |xs| && |multiset(ys)| == |ys|;
  }

  lemma SameMembers<T>(p: seq<T>, es: seq<T>, x: T)
    requires multiset(p) == multiset(es)
    ensures x in p <==> x in es
  {
    assert x in p <==> x in multiset(p);
    assert x in es <==> x in multiset(es);
  }

  lemma MultisetTail<T>(xs: seq<T>)
    requires xs != []
    ensures multiset(xs[1..]) == multiset(xs) - multiset{xs[0]}
  {
    assert xs == [xs[0]] + xs[1..];
  }

  lemma PeelAt<T>(xs: seq<T>, ys: seq<T>, k: nat)
    requires xs != [] && multiset(xs) == multiset(ys) && k < |ys| && ys[k] == xs[0]
    ensures multiset(xs[1..]) == multiset(ys[..k] + ys[k + 1..])
  {
    MultisetRemoveAt(ys, k);
    MultisetTail(xs);
  }

  lemma PermutationPeel<T>(xs: seq<T>, ys: seq<T>) returns (k: nat)
    requires xs != [] && multiset(xs) == multiset(ys)
    ensures k < |ys| && ys[k] == xs[0]
    ensures multiset(xs[1..]) == multiset(ys[..k] + ys[k + 1..])
  {
    SameMembers(xs, ys, xs[0]);
    k :| 0 <= k < |ys| && ys[k] == xs[0];
    PeelAt(xs, ys, k);
  }

  /** Reordering does not change a sum. */
  lemma {:induction false} TotalPermutation<T>(xs: seq<T>, ys: seq<T>, f: T -> int)
    requires multiset(xs) == multiset(ys)
    ensures Total(xs, f) == Total(ys, f)
  {
    PermutationLength(xs, ys);
    if xs != [] {
      var k := PermutationPeel(xs, ys);
      TotalPermutation(xs[1..], ys[..k] + ys[k + 1..], f);
      TotalSplit(ys, k, f);
    }
  }

  lemma {:induction false} TotalBounds<T>(xs: seq<T>, f: T -> int, g: T -> int)
    requires forall x <- xs :: f(x) <= g(x)
    ensures Total(xs, f) <= Total(xs, g)
  {
    if xs != [] {
      TotalBounds(xs[1..], f, g);
    }
  }

  lemma {:induction false} TotalNonNegative<T>(xs: seq<T>, f: T -> int)
    requires forall x <- xs :: 0 <= f(x)
    ensures 0 <= Total(xs, f)
    ensures forall x <- xs :: f(x) <= Total(xs, f)
    ensures Total(xs, f) == 0 ==> forall x <- xs :: f(x) == 0
  {
    if xs != [] {
      TotalNonNegative(xs[1..], f);
    }
  }

  lemma {:induction false} TotalSum<T>(xs: seq<T>, f: T -> int, g: T -> int, h: T -> int)
    requires forall x <- xs :: h(x) == f(x) + g(x)
    ensures Total(xs, h) == Total(xs, f) + Total(xs, g)
  {
    if xs != [] {
      TotalSum(xs[1..], f, g, h);
    }
  }

  // --- sums and maxima over sets ------------------------------------------------------------

  ghost function SumSet<T>(s: set<T>, f: T -> int): int {
    if s == {} then 0 else
      var x :| x in s;
      f(x) + SumSet(s - {x}, f)
  }

  /** Any element can be taken out first. */
  lemma {:induction false} SumSetRemove<T>(s: set<T>, f: T -> int, x: T)
    requires x in s
    ensures SumSet(s, f) == f(x) + SumSet(s - {x}, f)
    decreases |s|
  {
    var y :| y in s && SumSet(s, f) == f(y) + SumSet(s - {y}, f);
    if x != y {
      SumSetRemove(s - {y}, f, x);
      SumSetRemove(s - {x}, f, y);
      assert s - {y} - {x} == s - {x} - {y};
    }
  }

  lemma {:induction false} SumSetSame<T>(s: set<T>, f: T -> int, g: T -> int)
    requires forall x <- s :: f(x) == g(x)
    ensures SumSet(s, f) == SumSet(s, g)
    decreases |s|
  {
    if s != {} {
      var x :| x in s;
      SumSetRemove(s, f, x);
      SumSetRemove(s, g, x);
      SumSetSame(s - {x}, f, g);
    }
  }

  /** New elements that weigh nothing cannot raise the sum, and dropped ones only lower it. */
  lemma {:induction false} SumSetNoMore<T>(s: set<T>, t: set<T>, f: T -> int)
    requires forall x <- t :: 0 <= f(x)
    requires forall x <- s :: x !in t ==> f(x) == 0
    ensures 0 <= SumSet(t, f) && SumSet(s, f) <= SumSet(t, f)
    decreases |s| + |t|
  {
    if x :| x in s {
      SumSetRemove(s, f, x);
      if x in t {
        SumSetRemove(t, f, x);
        SumSetNoMore(s - {x}, t - {x}, f);
      } else {
        SumSetNoMore(s - {x}, t, f);
      }
    } else if y :| y in t {
      SumSetRemove(t, f, y);
      SumSetNoMore(s, t - {y}, f);
    }
  }

  lemma {:induction false} SumSetUnion<T>(s: set<T>, t: set<T>, f: T -> int)
    requires s !! t
    ensures SumSet(s + t, f) == SumSet(s, f) + SumSet(t, f)
    decreases |s|
  {
    if s == {} {
      assert s + t == t;
    } else {
      var x :| x in s;
      SumSetRemove(s, f, x);
      SumSetRemove(s + t, f, x);
      assert s + t - {x} == (s - {x}) + t;
      SumSetUnion(s - {x}, t, f);
    }
  }

  ghost function MaxOf(s: set<nat>): (m: nat)
    ensures s == {} ==> m == 0
    ensures s != {} ==> m in s
    ensures forall x <- s :: x <= m
  {
    if s == {} then 0 else
      var x :| x in s;
      var y := MaxOf(s - {x});
      assert forall z <- s :: z == x || z in s - {x};
      if x > y || s - {x} == {} then x else y
  }
}
