/** What the largest-remainder allocator guarantees, proved about `Allocator.Hamilton`. */
module AllocatorProperties {
  import opened Prelude
  import opened Allocator

  function Bumped(bump: set<Id>): Entry -> int { (e: Entry) => if e.id in bump then 1 else 0 }
  function HasId(x: Id): Entry -> int { (e: Entry) => if e.id == x then 1 else 0 }

  ghost predicate DistinctEntries(es: seq<Entry>) {
    forall i, j | 0 <= i < j < |es| :: es[i].id != es[j].id
  }

  // --- exactness ----------------------------------------------------------------------------

  lemma {:induction false} PartsTotal(es: seq<Entry>, bump: set<Id>)
    ensures Total(Parts(es, bump), Amount) == Total(es, Quota) + Total(es, Bumped(bump))
  {
    if es != [] {
      assert Parts(es, bump)[1..] == Parts(es[1..], bump);
      PartsTotal(es[1..], bump);
    }
  }

  lemma {:induction false} AllBumped(es: seq<Entry>, bump: set<Id>)
    requires forall e <- es :: e.id in bump
    ensures Total(es, Bumped(bump)) == |es|
  {
    if es != [] { AllBumped(es[1..], bump); }
  }

  /** No entry past the cut of the ranking carries the id of an entry before it. */
  ghost predicate CleanCut(p: seq<Entry>, r: nat)
    requires r <= |p|
  {
    forall i, j | 0 <= i < r <= j < |p| :: p[i].id != p[j].id
  }

  lemma BumpedPastCut(ys: seq<Entry>, bump: set<Id>)
    ensures 0 <= Total(ys, Bumped(bump))
    ensures Total(ys, Bumped(bump)) == 0 <==> forall y <- ys :: y.id !in bump
  {
    TotalNonNegative(ys, Bumped(bump));
    if forall y <- ys :: y.id !in bump {
      TotalZero(ys, Bumped(bump));
    } else {
      var y :| y in ys && y.id in bump;
      assert Bumped(bump)(y) == 1;
    }
  }

  lemma CleanCutIds(p: seq<Entry>, r: nat)
    requires r <= |p|
    ensures CleanCut(p, r) <==> forall y <- p[r..] :: y.id !in IdsOf(p[..r])
  {
    if !CleanCut(p, r) {
      var i, j :| 0 <= i < r <= j < |p| && p[i].id == p[j].id;
      assert p[..r][i] == p[i] && p[r..][j - r] == p[j];
    }
  }

  lemma BumpCount(es: seq<Entry>, p: seq<Entry>, r: nat)
    requires IsRankingOf(p, es) && r <= |p|
    ensures Total(es, Bumped(Bump(es, r))) >= r
    ensures Total(es, Bumped(Bump(es, r))) == r <==> CleanCut(p, r)
  {
    var bump := IdsOf(p[..r]);
    BumpIsTopOfRanking(es, p, r);
    TotalPermutation(es, p, Bumped(bump));
    assert p == p[..r] + p[r..];
    TotalConcat(p[..r], p[r..], Bumped(bump));
    AllBumped(p[..r], bump);
    BumpedPastCut(p[r..], bump);
    CleanCutIds(p, r);
  }

  lemma {:induction false} TotalZero<T>(xs: seq<T>, f: T -> int)
    requires forall x <- xs :: f(x) == 0
    ensures Total(xs, f) == 0
  {
    if xs != [] { TotalZero(xs[1..], f); }
  }

  /**
   * The parts reconcile to the total exactly when the ranking is not cut between two entries with
   * the same id. The bump set is keyed by id, so a repeated id across the cut is paid twice.
   */
  lemma ExactIff(total: nat, shares: seq<Share>)
    requires Splittable(total, shares)
    ensures var es := Entries(total, TotalWeight(shares), shares);
      && 0 <= Residual(total, es) <= |Ranking(es)|
      && (Total(Hamilton(total, shares), Amount) == total <==> CleanCut(Ranking(es), Residual(total, es)))
  {
    var es := Entries(total, TotalWeight(shares), shares);
    var r := Residual(total, es);
    ResidualRange(total, shares);
    RankingSorted(es);
    PartsTotal(es, Bump(es, r));
    BumpCount(es, Ranking(es), r);
  }

  lemma {:induction false} DistinctCount(es: seq<Entry>, x: Id)
    requires DistinctEntries(es)
    ensures Total(es, HasId(x)) <= 1
  {
    if es != [] {
      DistinctCount(es[1..], x);
      if es[0].id == x {
        TotalZero(es[1..], HasId(x));
      }
    }
  }

  lemma {:induction false} CountDistinct(p: seq<Entry>, i: nat, j: nat, x: Id)
    requires i < j < |p| && p[i].id == p[j].id == x
    ensures Total(p, HasId(x)) >= 2
  {
    if i == 0 {
      assert p[1..][j - 1] == p[j];
      assert HasId(x)(p[j]) == 1;
      TotalNonNegative(p[1..], HasId(x));
    } else {
      CountDistinct(p[1..], i - 1, j - 1, x);
    }
  }

  lemma DistinctPermutation(es: seq<Entry>, p: seq<Entry>)
    requires DistinctEntries(es) && multiset(p) == multiset(es)
    ensures DistinctEntries(p)
  {
    forall i, j | 0 <= i < j < |p| ensures p[i].id != p[j].id {
      if p[i].id == p[j].id {
        CountDistinct(p, i, j, p[i].id);
        TotalPermutation(es, p, HasId(p[i].id));
        DistinctCount(es, p[i].id);
      }
    }
  }

  /** With distinct ids nothing is lost or invented: the parts add up to the total. */
  lemma Exact(total: nat, shares: seq<Share>)
    requires Splittable(total, shares) && DistinctIds(shares)
    ensures Total(Hamilton(total, shares), Amount) == total
  {
    var es := Entries(total, TotalWeight(shares), shares);
    ExactIff(total, shares);
    DistinctPermutation(es, Ranking(es));
  }

  /** Why the ids must be distinct: one unit over two equal shares of one member comes out as two. */
  lemma RepeatedIdOverpays()
    ensures var shares := [Share("a", 1), Share("a", 1)];
      && Splittable(1, shares)
      && Allocation(1, shares) == Ok([Part("a", 1), Part("a", 1)])
  {
    var shares := [Share("a", 1), Share("a", 1)];
    assert shares[1..] == [Share("a", 1)] && shares[1..][1..] == [];
    assert TotalWeight(shares) == 2;
    var es := Entries(1, 2, shares);
    var e := Entry("a", 0, 1);
    assert EntryOf(1, 2, Share("a", 1)) == e;
    assert es == [e, e] && es[1..] == [e] && es[1..][1..] == [];
    TotalOfTwo(e, Quota);
    TotalOfTwo(e, Precedes(e));
    assert Residual(1, es) == 1;
    LexLessIrreflexive("a");
    assert Precedes(e)(e) == 0;
    assert CountBefore(es, e) == 0;
    assert "a" in Bump(es, 1);
    assert Hamilton(1, shares) == [Part("a", 1), Part("a", 1)];
  }

  lemma TotalOfTwo(e: Entry, f: Entry -> int)
    ensures Total([e, e], f) == 2 * f(e)
  {
    assert [e, e][1..] == [e];
    assert Total([e], f) == f(e) + Total([], f);
  }

  // --- quota --------------------------------------------------------------------------------

  /** Entry `i` receives the extra unit. */
  ghost predicate IsBumped(total: nat, shares: seq<Share>, i: nat)
    requires Splittable(total, shares) && i < |shares|
  {
    var es := Entries(total, TotalWeight(shares), shares);
    es[i].id in Bump(es, Residual(total, es))
  }

  lemma BumpedByRank(total: nat, shares: seq<Share>, i: nat)
    requires Splittable(total, shares) && DistinctIds(shares) && i < |shares|
    ensures var es := Entries(total, TotalWeight(shares), shares);
      IsBumped(total, shares, i) <==> CountBefore(es, es[i]) < Residual(total, es)
  {
    var es := Entries(total, TotalWeight(shares), shares);
    if IsBumped(total, shares, i) {
      var q :| q in es && CountBefore(es, q) < Residual(total, es) && q.id == es[i].id;
      var k :| 0 <= k < |es| && es[k] == q;
      assert k == i;
    }
    assert es[i] in es;
  }

  /** The residual runs out before the entries without a fractional claim are reached. */
  lemma OnlyFractionalBumped(total: nat, shares: seq<Share>, i: nat)
    requires Splittable(total, shares) && DistinctIds(shares) && i < |shares|
    ensures IsBumped(total, shares, i) ==> Entries(total, TotalWeight(shares), shares)[i].remainder > 0
  {
    hide IsBumped;
    var es := Entries(total, TotalWeight(shares), shares);
    BumpedByRank(total, shares, i);
    ResidualBelowPositive(total, shares);
    RemaindersBounded(total, TotalWeight(shares), shares);
    assert es[i] in es;
    FractionalRankFirst(es, es[i]);
  }

  /** Every entry with a fractional claim ranks before one without. */
  lemma FractionalRankFirst(es: seq<Entry>, q: Entry)
    requires forall e <- es :: e.remainder >= 0
    ensures 0 <= CountBefore(es, q)
    ensures q.remainder == 0 ==> Total(es, Positive) <= CountBefore(es, q)
  {
    TotalNonNegative(es, Precedes(q));
    if q.remainder == 0 {
      TotalBounds(es, Positive, Precedes(q));
    }
  }

  /** Every part is its floor or one more, and only a share with a fractional claim is rounded up. */
  lemma QuotaRule(total: nat, shares: seq<Share>, i: nat)
    requires Splittable(total, shares) && DistinctIds(shares) && i < |shares|
    ensures var exact := total * shares[i].weight; var w := TotalWeight(shares);
      var a := Hamilton(total, shares)[i].amount;
      && (a == exact / w || (a == exact / w + 1 && exact % w > 0))
      && (shares[i].weight == 0 ==> a == 0)
      && a >= 0
  {
    var w := TotalWeight(shares);
    OnlyFractionalBumped(total, shares, i);
    HamiltonPart(total, shares, i);
    assert shares[i] in shares;
    QuotientNonNegative(total, shares[i].weight, w);
    ZeroQuotient(total, w);
  }

  lemma HamiltonPart(total: nat, shares: seq<Share>, i: nat)
    requires Splittable(total, shares) && i < |shares|
    ensures var exact := total * shares[i].weight; var w := TotalWeight(shares);
      && Hamilton(total, shares)[i].amount == exact / w + (if IsBumped(total, shares, i) then 1 else 0)
      && Entries(total, w, shares)[i].remainder == exact % w
  {
  }

  lemma ZeroQuotient(total: nat, w: int)
    requires w > 0
    ensures total * 0 / w == 0 && total * 0 % w == 0
  {
  }

  lemma QuotientNonNegative(total: nat, x: nat, w: int)
    requires w > 0
    ensures total * x / w >= 0
  {
    assert total * x >= 0;
  }

  // --- monotonicity -------------------------------------------------------------------------

  /** A bumped entry never has a smaller remainder than one that was passed over. */
  lemma BumpThreshold(total: nat, shares: seq<Share>, i: nat, j: nat)
    requires Splittable(total, shares) && DistinctIds(shares) && i < |shares| && j < |shares|
    requires IsBumped(total, shares, i) && !IsBumped(total, shares, j)
    ensures var es := Entries(total, TotalWeight(shares), shares); es[i].remainder >= es[j].remainder
  {
    var es := Entries(total, TotalWeight(shares), shares);
    BumpedByRank(total, shares, i);
    BumpedByRank(total, shares, j);
    if es[i].remainder < es[j].remainder {
      forall e | e in es ensures Precedes(es[j])(e) <= Precedes(es[i])(e) {
        BeforeNegativelyTransitive(e, es[j], es[i]);
      }
      TotalBounds(es, Precedes(es[j]), Precedes(es[i]));
    }
  }

  /** Within one allocation a strictly larger weight never receives less. */
  lemma LargerWeightNeverLess(total: nat, shares: seq<Share>, i: nat, j: nat)
    requires Splittable(total, shares) && DistinctIds(shares) && i < |shares| && j < |shares|
    requires shares[i].weight > shares[j].weight
    ensures Hamilton(total, shares)[i].amount >= Hamilton(total, shares)[j].amount
  {
    var w := TotalWeight(shares);
    var es := Entries(total, w, shares);
    assert es[i] == EntryOf(total, w, shares[i]) && es[j] == EntryOf(total, w, shares[j]);
    QuotaRule(total, shares, i);
    QuotaRule(total, shares, j);
    MonotoneDivision(total, shares[i].weight, shares[j].weight, w);
    if IsBumped(total, shares, j) && !IsBumped(total, shares, i) {
      BumpThreshold(total, shares, j, i);
    }
  }

  lemma MonotoneDivision(total: nat, a: int, b: int, w: int)
    requires w > 0 && a > b
    ensures total * a / w >= total * b / w
    ensures total * a / w == total * b / w ==> total * a % w >= total * b % w
    ensures total * a / w == total * b / w && total * a % w == total * b % w ==> total == 0
  {
    var x, y := total * a, total * b;
    assert x - y == total * (a - b);
    FloorAndRemainder(x, w);
    FloorAndRemainder(y, w);
    if total > 0 {
      assert total * (a - b) >= 1;
    }
    QuotientsOrdered(w, x / w, x % w, y / w, y % w);
  }

  lemma QuotientsOrdered(w: int, q: int, r: int, q': int, r': int)
    requires w > 0 && 0 <= r < w && 0 <= r' < w
    requires q * w + r >= q' * w + r'
    ensures q >= q' && (q == q' ==> r >= r')
  {
    MulMonotone(q + 1, q', w);
    assert (q + 1) * w == q * w + w;
  }

  // --- optimality ---------------------------------------------------------------------------

  function Deviation(total: int, w: int, weight: int, b: int): int {
    (w * b - total * weight) * (w * b - total * weight)
  }

  /** The sum of squared deviations from the proportional split, scaled by the total weight. */
  function Cost(total: int, w: int, shares: seq<Share>, bs: seq<int>): int
    requires |shares| == |bs|
  {
    if bs == [] then 0
    else Deviation(total, w, shares[0].weight, bs[0]) + Cost(total, w, shares[1..], bs[1..])
  }

  function Identity(x: int): int { x }

  function Amounts(parts: seq<Part>): seq<int> {
    seq(|parts|, i requires 0 <= i < |parts| => parts[i].amount)
  }

  lemma {:induction false} AmountsTotal(parts: seq<Part>)
    ensures Total(Amounts(parts), Identity) == Total(parts, Amount)
  {
    if parts != [] {
      assert Amounts(parts)[1..] == Amounts(parts[1..]);
      AmountsTotal(parts[1..]);
    }
  }

  /** The price of moving one share away from what Hamilton gives it, at shadow price w(2t - w). */
  lemma PointwiseOptimal(w: int, x: int, t: int, bumped: bool, r: int, d: int)
    requires w > 0 && 0 <= r < w && 0 <= t <= w
    requires bumped ==> r >= t
    requires !bumped ==> r <= t
    requires x == (if bumped then w - r else -r)
    ensures (x + w * d) * (x + w * d) + w * (2 * t - w) * d >= x * x
  {
    var inner := w * d + 2 * x + 2 * t - w;
    InnerSign(w, x, t, bumped, r, d, inner);
    Square(x, w * d);
    Distribute(w, d, 2 * x, w * d, 2 * t - w);
    assert w * (d * inner) >= 0;
  }

  lemma InnerSign(w: int, x: int, t: int, bumped: bool, r: int, d: int, inner: int)
    requires w > 0 && 0 <= r < w && 0 <= t <= w
    requires bumped ==> r >= t
    requires !bumped ==> r <= t
    requires x == (if bumped then w - r else -r)
    requires inner == w * d + 2 * x + 2 * t - w
    ensures d * inner >= 0
  {
    if d >= 1 {
      assert w * d >= w;
      assert inner >= 0;
    } else if d <= -1 {
      assert w * d <= -w;
      assert inner <= 0;
    }
  }

  lemma Square(x: int, y: int)
    ensures (x + y) * (x + y) == x * x + 2 * x * y + y * y
  {
  }

  lemma Distribute(w: int, d: int, a: int, b: int, c: int)
    ensures a * (w * d) + b * (w * d) + w * c * d == w * (d * (a + b + c))
  {
    assert w * c * d == c * (w * d);
    assert (a + b + c) * (w * d) == a * (w * d) + b * (w * d) + c * (w * d);
    assert w * (d * (a + b + c)) == (a + b + c) * (w * d);
  }

  lemma {:induction false} SummedOptimal(total: int, w: int, m: int, shares: seq<Share>, xs: seq<int>, bs: seq<int>)
    requires |shares| == |xs| == |bs|
    requires forall i | 0 <= i < |xs| ::
      Deviation(total, w, shares[i].weight, bs[i]) + m * (bs[i] - xs[i]) >= Deviation(total, w, shares[i].weight, xs[i])
    ensures Cost(total, w, shares, bs) + m * (Total(bs, Identity) - Total(xs, Identity)) >= Cost(total, w, shares, xs)
  {
    if xs != [] {
      SummedOptimal(total, w, m, shares[1..], xs[1..], bs[1..]);
      var p, q := bs[0] - xs[0], Total(bs[1..], Identity) - Total(xs[1..], Identity);
      assert m * (p + q) == m * p + m * q;
    }
  }

  /** `t` separates the remainders of the bumped shares from those of the rest. */
  ghost predicate Separates(t: int, total: nat, shares: seq<Share>)
    requires Splittable(total, shares)
  {
    var es := Entries(total, TotalWeight(shares), shares);
    && 0 <= t <= TotalWeight(shares)
    && forall i | 0 <= i < |shares| ::
         if IsBumped(total, shares, i) then es[i].remainder >= t else es[i].remainder <= t
  }

  /** The remainder of the last bumped entry separates the bumped from the rest. */
  lemma Threshold(total: nat, shares: seq<Share>) returns (t: int)
    requires Splittable(total, shares) && DistinctIds(shares)
    ensures Separates(t, total, shares)
  {
    var w := TotalWeight(shares);
    var es := Entries(total, w, shares);
    RemaindersBounded(total, w, shares);
    t := w;
    var lowest := -1;
    for k := 0 to |shares|
      invariant 0 <= t <= w
      invariant lowest == -1 ==> t == w
      invariant lowest != -1 ==> 0 <= lowest < k && IsBumped(total, shares, lowest) && t == es[lowest].remainder
      invariant forall i | 0 <= i < k && IsBumped(total, shares, i) :: es[i].remainder >= t && lowest != -1
    {
      assert es[k] in es;
      if IsBumped(total, shares, k) && es[k].remainder <= t {
        t, lowest := es[k].remainder, k;
      }
    }
    forall i | 0 <= i < |shares| && !IsBumped(total, shares, i) ensures es[i].remainder <= t {
      assert es[i] in es;
      if lowest != -1 {
        BumpThreshold(total, shares, lowest, i);
      }
    }
  }

  lemma ShareOptimal(total: nat, shares: seq<Share>, t: int, i: nat, b: int)
    requires Splittable(total, shares) && i < |shares| && Separates(t, total, shares)
    ensures var w := TotalWeight(shares); var a := Hamilton(total, shares)[i].amount;
      Deviation(total, w, shares[i].weight, b) + w * (2 * t - w) * (b - a) >= Deviation(total, w, shares[i].weight, a)
  {
    var w := TotalWeight(shares);
    var e := EntryOf(total, w, shares[i]);
    assert e == Entries(total, w, shares)[i];
    var a := Hamilton(total, shares)[i].amount;
    var n := total * shares[i].weight;
    FloorAndRemainder(n, w);
    var x := w * a - n;
    assert w * (e.quota + 1) == w * e.quota + w;
    PointwiseOptimal(w, x, t, IsBumped(total, shares, i), e.remainder, b - a);
    assert x + w * (b - a) == w * b - n by { assert w * (b - a) == w * b - w * a; }
  }

  lemma OptimalAt(total: nat, shares: seq<Share>, t: int, xs: seq<int>, bs: seq<int>)
    requires Splittable(total, shares) && Separates(t, total, shares)
    requires |bs| == |shares| && xs == Amounts(Hamilton(total, shares))
    requires Total(bs, Identity) == Total(xs, Identity)
    ensures Cost(total, TotalWeight(shares), shares, bs) >= Cost(total, TotalWeight(shares), shares, xs)
  {
    var w := TotalWeight(shares);
    var m := w * (2 * t - w);
    forall i | 0 <= i < |xs|
      ensures Deviation(total, w, shares[i].weight, bs[i]) + m * (bs[i] - xs[i]) >= Deviation(total, w, shares[i].weight, xs[i])
    {
      ShareOptimal(total, shares, t, i, bs[i]);
    }
    SummedOptimal(total, w, m, shares, xs, bs);
  }

  /**
   * Hamilton's split is optimal: no integer vector with the same total deviates less, in the sum of
   * squares, from the proportional split.
   */
  lemma Optimal(total: nat, shares: seq<Share>, bs: seq<int>)
    requires Splittable(total, shares) && DistinctIds(shares)
    requires |bs| == |shares| && Total(bs, Identity) == total
    ensures Cost(total, TotalWeight(shares), shares, Amounts(Hamilton(total, shares)))
         <= Cost(total, TotalWeight(shares), shares, bs)
  {
    var parts := Hamilton(total, shares);
    var t := Threshold(total, shares);
    AmountsTotal(parts);
    Exact(total, shares);
    OptimalAt(total, shares, t, Amounts(parts), bs);
  }

  // --- order independence -------------------------------------------------------------------

  function Through(total: nat, w: int, f: Entry -> int): Share -> int
    requires w > 0
  {
    (s: Share) => f(EntryOf(total, w, s))
  }

  lemma {:induction false} EntriesTotal(total: nat, w: int, shares: seq<Share>, f: Entry -> int)
    requires w > 0
    ensures Total(Entries(total, w, shares), f) == Total(shares, Through(total, w, f))
  {
    if shares != [] {
      assert Entries(total, w, shares)[1..] == Entries(total, w, shares[1..]);
      EntriesTotal(total, w, shares[1..], f);
    }
  }

  lemma EntriesTotalPermutation(total: nat, w: int, shares: seq<Share>, shares': seq<Share>, f: Entry -> int)
    requires w > 0 && multiset(shares) == multiset(shares')
    ensures Total(Entries(total, w, shares), f) == Total(Entries(total, w, shares'), f)
  {
    EntriesTotal(total, w, shares, f);
    EntriesTotal(total, w, shares', f);
    TotalPermutation(shares, shares', Through(total, w, f));
  }

  lemma BumpContained(total: nat, w: int, shares: seq<Share>, shares': seq<Share>, r: int)
    requires w > 0 && multiset(shares) == multiset(shares')
    ensures Bump(Entries(total, w, shares), r) <= Bump(Entries(total, w, shares'), r)
  {
    var es, es' := Entries(total, w, shares), Entries(total, w, shares');
    forall q | q in es ensures q in es' && CountBefore(es, q) == CountBefore(es', q) {
      var i :| 0 <= i < |es| && es[i] == q;
      SameMembers(shares, shares', shares[i]);
      var j :| 0 <= j < |shares'| && shares'[j] == shares[i];
      assert es'[j] == q;
      EntriesTotalPermutation(total, w, shares, shares', Precedes(q));
    }
  }

  lemma HamiltonPermutation(total: nat, shares: seq<Share>, shares': seq<Share>)
    requires multiset(shares) == multiset(shares') && TotalWeight(shares) > 0
    ensures TotalWeight(shares') == TotalWeight(shares)
    ensures forall i, j | 0 <= i < |shares| && 0 <= j < |shares'| && shares[i] == shares'[j] ::
      Hamilton(total, shares)[i] == Hamilton(total, shares')[j]
  {
    TotalPermutation(shares, shares', Weight);
    var w := TotalWeight(shares);
    var es, es' := Entries(total, w, shares), Entries(total, w, shares');
    EntriesTotalPermutation(total, w, shares, shares', Quota);
    BumpContained(total, w, shares, shares', Residual(total, es));
    BumpContained(total, w, shares', shares, Residual(total, es));
  }

  /** Shuffling the input changes nobody's amount, and the output follows the input order. */
  lemma OrderIndependent(total: int, shares: seq<Share>, shares': seq<Share>)
    requires multiset(shares) == multiset(shares')
    ensures Allocation(total, shares).Ok? == Allocation(total, shares').Ok?
    ensures Allocation(total, shares).Ok? ==>
      && |Allocation(total, shares).value| == |shares| == |shares'| == |Allocation(total, shares').value|
      && (forall i | 0 <= i < |shares| :: Allocation(total, shares).value[i].id == shares[i].id)
      && (forall i, j | 0 <= i < |shares| && 0 <= j < |shares'| && shares[i] == shares'[j] ::
           Allocation(total, shares).value[i] == Allocation(total, shares').value[j])
  {
    PermutationLength(shares, shares');
    forall s ensures s in shares <==> s in shares' {
      SameMembers(shares, shares', s);
    }
    TotalPermutation(shares, shares', Weight);
    if Splittable(total, shares) {
      HamiltonPermutation(total, shares, shares');
    }
  }
}
