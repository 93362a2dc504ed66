/**
 * Who receives the leftover units, said without the ranking: exactness, the quota and the order of
 * the claims determine every amount, so they describe the allocator completely.
 */
module AllocatorUniqueness {
  import opened Prelude
  import opened Allocator
  import opened AllocatorProperties

  function Floor(total: nat, shares: seq<Share>, i: nat): int
    requires i < |shares| && TotalWeight(shares) > 0
  {
    total * shares[i].weight / TotalWeight(shares)
  }

  function Claim(total: nat, shares: seq<Share>, i: nat): int
    requires i < |shares| && TotalWeight(shares) > 0
  {
    total * shares[i].weight % TotalWeight(shares)
  }

  /** The larger fractional claim goes first, and the smaller id among equal ones. */
  predicate Outranks(total: nat, shares: seq<Share>, i: nat, j: nat)
    requires i < |shares| && j < |shares| && TotalWeight(shares) > 0
  {
    || Claim(total, shares, i) > Claim(total, shares, j)
    || (Claim(total, shares, i) == Claim(total, shares, j) && LexLess(shares[i].id, shares[j].id))
  }

  /** A share that gets an extra unit outranks every share that gets none. */
  lemma ExtraUnitsFollowTheOrder(total: nat, shares: seq<Share>, i: nat, j: nat)
    requires Splittable(total, shares) && DistinctIds(shares) && i < |shares| && j < |shares|
    requires Hamilton(total, shares)[i].amount == Floor(total, shares, i) + 1
    requires Hamilton(total, shares)[j].amount == Floor(total, shares, j)
    ensures Outranks(total, shares, i, j)
  {
    hide IsBumped;
    var es := Entries(total, TotalWeight(shares), shares);
    HamiltonPart(total, shares, i);
    HamiltonPart(total, shares, j);
    BumpedByRank(total, shares, i);
    BumpedByRank(total, shares, j);
    if Before(es[j], es[i]) {
      forall e | e in es ensures Precedes(es[j])(e) <= Precedes(es[i])(e) {
        BeforeNegativelyTransitive(e, es[j], es[i]);
      }
      TotalBounds(es, Precedes(es[j]), Precedes(es[i]));
    }
    LexLessTotal(shares[i].id, shares[j].id);
    assert i < j ==> shares[i].id != shares[j].id;
    assert j < i ==> shares[j].id != shares[i].id;
  }

  /** Of two equal claims the one with the smaller id is served first. */
  lemma TiesGoToTheSmallerId(total: nat, shares: seq<Share>, i: nat, j: nat)
    requires Splittable(total, shares) && DistinctIds(shares) && i < |shares| && j < |shares|
    requires total * shares[i].weight % TotalWeight(shares) == total * shares[j].weight % TotalWeight(shares)
    requires LexLess(shares[i].id, shares[j].id)
    requires Hamilton(total, shares)[j].amount == total * shares[j].weight / TotalWeight(shares) + 1
    ensures Hamilton(total, shares)[i].amount == total * shares[i].weight / TotalWeight(shares) + 1
  {
    hide Hamilton;
    QuotaRule(total, shares, i);
    if Hamilton(total, shares)[i].amount != Floor(total, shares, i) + 1 {
      ExtraUnitsFollowTheOrder(total, shares, j, i);
      LexLessTotal(shares[i].id, shares[j].id);
    }
  }

  // --- nothing else fits --------------------------------------------------------------------

  /** Exact, within one unit above the floor, and the extra units given in order. */
  ghost predicate FairSplit(total: nat, shares: seq<Share>, xs: seq<int>)
    requires Splittable(total, shares)
  {
    && |xs| == |shares| && Total(xs, Identity) == total
    && (forall i | 0 <= i < |xs| :: xs[i] == Floor(total, shares, i) || xs[i] == Floor(total, shares, i) + 1)
    && forall i, j | 0 <= i < |xs| && 0 <= j < |xs| ::
         xs[i] > Floor(total, shares, i) && xs[j] == Floor(total, shares, j) ==> Outranks(total, shares, i, j)
  }

  lemma HamiltonIsFair(total: nat, shares: seq<Share>)
    requires Splittable(total, shares) && DistinctIds(shares)
    ensures FairSplit(total, shares, Amounts(Hamilton(total, shares)))
  {
    hide Hamilton, Floor, Outranks;
    var xs := Amounts(Hamilton(total, shares));
    Exact(total, shares);
    AmountsTotal(Hamilton(total, shares));
    forall i | 0 <= i < |xs| ensures xs[i] == Floor(total, shares, i) || xs[i] == Floor(total, shares, i) + 1 {
      FloorOrOneMore(total, shares, i);
    }
    forall i, j | 0 <= i < |xs| && 0 <= j < |xs|
      ensures xs[i] > Floor(total, shares, i) && xs[j] == Floor(total, shares, j) ==> Outranks(total, shares, i, j)
    {
      if xs[i] > Floor(total, shares, i) && xs[j] == Floor(total, shares, j) {
        ExtraUnitsFollowTheOrder(total, shares, i, j);
      }
    }
  }

  lemma FloorOrOneMore(total: nat, shares: seq<Share>, i: nat)
    requires Splittable(total, shares) && DistinctIds(shares) && i < |shares|
    ensures var a := Hamilton(total, shares)[i].amount; a == Floor(total, shares, i) || a == Floor(total, shares, i) + 1
  {
    QuotaRule(total, shares, i);
  }

  /** Two different lists with the same sum: one is above somewhere, the other somewhere else. */
  lemma {:induction false} SomewhereAbove(xs: seq<int>, ys: seq<int>) returns (i: nat)
    requires |xs| == |ys| && Total(xs, Identity) >= Total(ys, Identity) && xs != ys
    ensures i < |xs| && xs[i] > ys[i]
  {
    if xs[0] > ys[0] {
      i := 0;
    } else {
      assert xs == [xs[0]] + xs[1..] && ys == [ys[0]] + ys[1..];
      var k := SomewhereAbove(xs[1..], ys[1..]);
      i := k + 1;
    }
  }

  lemma OutranksOneWay(total: nat, shares: seq<Share>, i: nat, j: nat)
    requires i < |shares| && j < |shares| && TotalWeight(shares) > 0
    ensures !(Outranks(total, shares, i, j) && Outranks(total, shares, j, i))
  {
    LexLessTotal(shares[i].id, shares[j].id);
  }

  /**
   * The allocator is determined by what it promises: a list of amounts is its result exactly when it
   * adds up to the total, stays within one unit above the floors, and gives the extra units to the
   * largest claims, the smaller id first among equal ones.
   */
  lemma OnlyFairSplit(total: nat, shares: seq<Share>, xs: seq<int>)
    requires Splittable(total, shares) && DistinctIds(shares)
    ensures FairSplit(total, shares, xs) <==> xs == Amounts(Hamilton(total, shares))
  {
    hide Hamilton, Floor, Outranks;
    var ys := Amounts(Hamilton(total, shares));
    HamiltonIsFair(total, shares);
    if FairSplit(total, shares, xs) && xs != ys {
      var i := SomewhereAbove(xs, ys);
      var j := SomewhereAbove(ys, xs);
      OutranksOneWay(total, shares, i, j);
    }
  }

  /** The other inputs: what is refused, what is empty, and what has nothing to go by. */
  lemma AllocationCases(total: int, shares: seq<Share>)
    ensures Allocation(total, shares).Ok? <==> total >= 0 && forall s <- shares :: s.weight >= 0
    ensures Allocation(total, shares).Err? ==> Allocation(total, shares).error == RangeError
    ensures Allocation(total, shares).Ok? ==>
      var parts := Allocation(total, shares).value;
      && |parts| == |shares|
      && (forall i | 0 <= i < |shares| :: parts[i].id == shares[i].id)
      && (TotalWeight(shares) > 0 ==> parts == Hamilton(total, shares))
      && (TotalWeight(shares) == 0 ==> forall p <- parts :: p.amount == 0)
  {
    if AllNonNegative(shares) { TotalNonNegative(shares, Weight); }
  }
}
