/**
 * The largest-remainder (Hamilton) allocator.
 *
 * `Allocation` says declaratively who receives a leftover unit: a share is bumped when fewer than
 * `residual` entries precede its id in the ranking order. `AllocateByLargestRemainder` is the
 * imperative form with a sort, a residual loop and a bump set keyed by id; it is proved equal to
 * `Allocation` for every input, repeated ids included.
 */
module Allocator {
  import opened Prelude

  datatype Share = Share(id: Id, weight: int)
  datatype Part = Part(id: Id, amount: int)
  /** A share after flooring: the whole units it gets for certain and what is left of its claim. */
  datatype Entry = Entry(id: Id, quota: int, remainder: int)

  function Weight(s: Share): int { s.weight }
  function Amount(p: Part): int { p.amount }
  function Quota(e: Entry): int { e.quota }
  function Remainder(e: Entry): int { e.remainder }

  function TotalWeight(shares: seq<Share>): int { Total(shares, Weight) }

  predicate AllNonNegative(shares: seq<Share>) { forall s <- shares :: s.weight >= 0 }

  ghost predicate DistinctIds(shares: seq<Share>) {
    forall i, j | 0 <= i < j < |shares| :: shares[i].id != shares[j].id
  }

  lemma FloorAndRemainder(numerator: int, weight: int)
    requires weight > 0
    ensures numerator - numerator / weight * weight == numerator % weight
    ensures 0 <= numerator % weight < weight
  {
  }

  function EntryOf(total: nat, weight: int, s: Share): Entry
    requires weight > 0
  {
    Entry(s.id, total * s.weight / weight, total * s.weight % weight)
  }

  function Entries(total: nat, weight: int, shares: seq<Share>): (es: seq<Entry>)
    requires weight > 0
    ensures |es| == |shares|
  {
    seq(|shares|, i requires 0 <= i < |shares| =>
      EntryOf(total, weight, shares[i]))
  }

  /** Leftover units once every share has its floor. */
  function Residual(total: nat, es: seq<Entry>): int { total - Total(es, Quota) }

  // --- the ranking order --------------------------------------------------------------------

  /** Larger remainder first; equal remainders by ascending id. */
  predicate Before(a: Entry, b: Entry) {
    a.remainder > b.remainder || (a.remainder == b.remainder && LexLess(a.id, b.id))
  }

  function Precedes(q: Entry): Entry -> int { (e: Entry) => if Before(e, q) then 1 else 0 }

  /** How many entries rank strictly ahead of `q`. */
  function CountBefore(es: seq<Entry>, q: Entry): int { Total(es, Precedes(q)) }

  /** The ids that receive one extra unit. */
  function Bump(es: seq<Entry>, residual: int): set<Id> {
    set q | q in es && CountBefore(es, q) < residual :: q.id
  }

  function Parts(es: seq<Entry>, bump: set<Id>): (parts: seq<Part>)
    ensures |parts| == |es|
  {
    seq(|es|, i requires 0 <= i < |es| =>
      Part(es[i].id, if es[i].id in bump then es[i].quota + 1 else es[i].quota))
  }

  function Hamilton(total: nat, shares: seq<Share>): (parts: seq<Part>)
    requires TotalWeight(shares) > 0
    ensures |parts| == |shares|
  {
    var es := Entries(total, TotalWeight(shares), shares);
    Parts(es, Bump(es, Residual(total, es)))
  }

  /** What the allocator returns on every input, error cases included. */
  function Allocation(total: int, shares: seq<Share>): Result<seq<Part>> {
    if total < 0 then Err(RangeError)
    else if shares == [] then Ok([])
    else if !AllNonNegative(shares) then Err(RangeError)
    else if TotalWeight(shares) <= 0 then
      Ok(seq(|shares|, i requires 0 <= i < |shares| => Part(shares[i].id, 0)))
    else Ok(Hamilton(total, shares))
  }

  /** The domain on which the allocator promises a proportional split. */
  ghost predicate Splittable(total: int, shares: seq<Share>) {
    total >= 0 && AllNonNegative(shares) && TotalWeight(shares) > 0
  }

  // --- sorting ------------------------------------------------------------------------------

  ghost predicate Sorted(es: seq<Entry>) {
    forall i, j | 0 <= i < j < |es| :: !Before(es[j], es[i])
  }

  lemma BeforeNegativelyTransitive(y: Entry, x: Entry, q: Entry)
    ensures Before(y, q) && !Before(x, q) ==> Before(y, x)
    ensures Before(y, x) && Before(x, q) ==> Before(y, q)
    ensures !(Before(x, q) && Before(q, x))
    ensures !Before(x, q) && !Before(q, x) ==> x.id == q.id && x.remainder == q.remainder
  {
    LexLessTotal(x.id, q.id);
    if LexLess(y.id, q.id) && LexLess(q.id, x.id) {
      LexLessTransitive(y.id, q.id, x.id);
    }
    if LexLess(y.id, x.id) && LexLess(x.id, q.id) {
      LexLessTransitive(y.id, x.id, q.id);
    }
  }

  function Insert(e: Entry, es: seq<Entry>): (r: seq<Entry>)
    ensures multiset(r) == multiset{e} + multiset(es)
  {
    if es == [] then [e]
    else if Before(es[0], e) then
      assert es == [es[0]] + es[1..];
      [es[0]] + Insert(e, es[1..])
    else [e] + es
  }

  /** Stands for the library sort on the ranking comparator. */
  function Ranking(es: seq<Entry>): (r: seq<Entry>)
    ensures multiset(r) == multiset(es)
    ensures |r| == |es|
  {
    if es == [] then []
    else
      assert es == [es[0]] + es[1..];
      var r := Insert(es[0], Ranking(es[1..]));
      assert |multiset(r)| == |r| && |multiset(es)| == |es|;
      r
  }

  lemma {:induction false} InsertSorted(e: Entry, es: seq<Entry>)
    requires Sorted(es)
    ensures Sorted(Insert(e, es))
  {
    if es == [] {
    } else if Before(es[0], e) {
      InsertSorted(e, es[1..]);
      var rest := Insert(e, es[1..]);
      forall x | x in rest ensures !Before(x, es[0]) {
        assert x in multiset{e} + multiset(es[1..]);
        BeforeNegativelyTransitive(x, e, es[0]);
        BeforeNegativelyTransitive(x, es[0], e);
      }
      assert Insert(e, es) == [es[0]] + rest;
    } else {
      forall x | x in es ensures !Before(x, e) {
        BeforeNegativelyTransitive(x, es[0], e);
      }
    }
  }

  lemma {:induction false} RankingSorted(es: seq<Entry>)
    ensures Sorted(Ranking(es))
  {
    if es != [] {
      RankingSorted(es[1..]);
      InsertSorted(es[0], Ranking(es[1..]));
    }
  }

  /** In a sorted list, the entries ahead of `q` are exactly a prefix. */
  lemma {:induction false} SortedPrefix(p: seq<Entry>, q: Entry)
    requires Sorted(p)
    ensures 0 <= CountBefore(p, q) <= |p|
    ensures forall j | 0 <= j < |p| :: j < CountBefore(p, q) <==> Before(p[j], q)
  {
    if p != [] {
      SortedPrefix(p[1..], q);
      assert forall j | 1 <= j < |p| :: p[j] == p[1..][j - 1];
      if !Before(p[0], q) {
        forall j | 0 <= j < |p| ensures !Before(p[j], q) {
          BeforeNegativelyTransitive(p[j], p[0], q);
        }
        if |p| > 1 {
          assert !Before(p[1..][0], q);
        }
      }
    }
  }

  ghost function IdsOf(p: seq<Entry>): set<Id> { set e | e in p :: e.id }

  ghost predicate IsRankingOf(p: seq<Entry>, es: seq<Entry>) {
    multiset(p) == multiset(es) && Sorted(p)
  }

  /** An entry with fewer than `r` entries ahead of it shares its id with one of the first `r` places. */
  lemma TopHolds(es: seq<Entry>, p: seq<Entry>, r: nat, q: Entry) returns (c: nat)
    requires IsRankingOf(p, es) && r <= |p| && q in es && CountBefore(es, q) < r
    ensures c < r && p[c].id == q.id
  {
    TotalPermutation(es, p, Precedes(q));
    SortedPrefix(p, q);
    c := CountBefore(p, q);
    SameMembers(p, es, q);
    var k :| 0 <= k < |p| && p[k] == q;
    BeforeNegativelyTransitive(q, q, q);
    assert c <= k && !Before(p[c], q) && !Before(q, p[c]);
    BeforeNegativelyTransitive(q, p[c], q);
  }

  lemma TopIsBumped(es: seq<Entry>, p: seq<Entry>, r: nat, k: nat)
    requires IsRankingOf(p, es) && k < r <= |p|
    ensures p[k] in es && CountBefore(es, p[k]) < r
  {
    SortedPrefix(p, p[k]);
    BeforeNegativelyTransitive(p[k], p[k], p[k]);
    TotalPermutation(es, p, Precedes(p[k]));
    SameMembers(p, es, p[k]);
  }

  /** The declarative bump set is the set of ids in the first `r` places of the ranking. */
  lemma BumpIsTopOfRanking(es: seq<Entry>, p: seq<Entry>, r: nat)
    requires IsRankingOf(p, es) && r <= |p|
    ensures Bump(es, r) == IdsOf(p[..r])
  {
    forall x | x in Bump(es, r) ensures x in IdsOf(p[..r]) {
      var q :| q in es && CountBefore(es, q) < r && q.id == x;
      var c := TopHolds(es, p, r, q);
      assert p[..r][c] == p[c];
    }
    forall x | x in IdsOf(p[..r]) ensures x in Bump(es, r) {
      var k :| 0 <= k < r && p[k].id == x;
      TopIsBumped(es, p, r, k);
    }
  }

  // --- the imperative allocator -------------------------------------------------------------

  /** Adds up the weights, refusing at the first negative one. */
  method SumWeights(shares: seq<Share>) returns (r: Result<int>)
    ensures r == if AllNonNegative(shares) then Ok(TotalWeight(shares)) else Err(RangeError)
  {
    var totalWeight := 0;
    for i := 0 to |shares|
      invariant totalWeight == TotalWeight(shares[..i])
      invariant AllNonNegative(shares[..i])
    {
      if shares[i].weight < 0 {
        assert shares[i] in shares;
        return Err(RangeError);
      }
      totalWeight := totalWeight + shares[i].weight;
      assert shares[..i + 1] == shares[..i] + [shares[i]];
      TotalSnoc(shares[..i], shares[i], Weight);
    }
    assert shares[..|shares|] == shares;
    return Ok(totalWeight);
  }

  /** Floors every share, adding up what is handed out on the way. */
  method FloorShares(total: nat, totalWeight: int, shares: seq<Share>)
    returns (provisional: seq<Entry>, handedOut: int)
    requires totalWeight > 0
    ensures provisional == Entries(total, totalWeight, shares)
    ensures handedOut == Total(provisional, Quota)
  {
    provisional, handedOut := [], 0;
    for i := 0 to |shares|
      invariant |provisional| == i
      invariant forall j | 0 <= j < i :: provisional[j] == EntryOf(total, totalWeight, shares[j])
      invariant handedOut == Total(provisional, Quota)
    {
      var numerator := total * shares[i].weight;
      var floorShare := numerator / totalWeight;
      var remainder := numerator - floorShare * totalWeight;
      FloorAndRemainder(numerator, totalWeight);
      var entry := Entry(shares[i].id, floorShare, remainder);
      TotalSnoc(provisional, entry, Quota);
      provisional := provisional + [entry];
      handedOut := handedOut + floorShare;
    }
  }

  /** Collects the ids of the first `residual` ranked entries. */
  method BumpLeaders(ranking: seq<Entry>, leftover: nat) returns (bump: set<Id>)
    requires leftover <= |ranking|
    ensures bump == IdsOf(ranking[..leftover])
  {
    bump := {};
    var residual: int := leftover;
    var i := 0;
    while i < |ranking| && residual > 0
      invariant 0 <= i <= |ranking|
      invariant residual == leftover - i >= 0
      invariant bump == IdsOf(ranking[..i])
    {
      assert ranking[..i + 1] == ranking[..i] + [ranking[i]];
      bump := bump + {ranking[i].id};
      residual := residual - 1;
      i := i + 1;
    }
  }

  method AllocateByLargestRemainder(total: int, shares: seq<Share>) returns (r: Result<seq<Part>>)
    ensures r == Allocation(total, shares)
  {
    if total < 0 { return Err(RangeError); }
    if |shares| == 0 { return Ok([]); }

    var weighed := SumWeights(shares);
    if weighed.Err? { return Err(weighed.error); }
    var totalWeight := weighed.value;
    TotalNonNegative(shares, Weight);
    if totalWeight == 0 {
      return Ok(seq(|shares|, i requires 0 <= i < |shares| => Part(shares[i].id, 0)));
    }

    var provisional, handedOut := FloorShares(total, totalWeight, shares);
    ResidualRange(total, shares);
    var residual := total - handedOut;

    var ranking := Ranking(provisional);
    RankingSorted(provisional);
    BumpIsTopOfRanking(provisional, ranking, residual);
    var bump := BumpLeaders(ranking, residual);
    return Ok(Parts(provisional, bump));
  }

  // --- the residual -------------------------------------------------------------------------

  function Positive(e: Entry): int { if e.remainder > 0 then 1 else 0 }
  function One(e: Entry): int { 1 }
  function PositiveTimes(c: int): Entry -> int { (e: Entry) => c * Positive(e) }

  lemma {:induction false} EntrySums(total: nat, weight: int, shares: seq<Share>)
    requires weight > 0
    ensures var es := Entries(total, weight, shares);
      total * TotalWeight(shares) == weight * Total(es, Quota) + Total(es, Remainder)
  {
    if shares != [] {
      EntrySums(total, weight, shares[1..]);
      var es := Entries(total, weight, shares);
      assert es[1..] == Entries(total, weight, shares[1..]);
      var n := total * shares[0].weight;
      assert n == weight * (n / weight) + n % weight;
      var a, b, c := shares[0].weight, TotalWeight(shares[1..]), Total(es[1..], Quota);
      assert total * (a + b) == total * a + total * b;
      assert weight * (es[0].quota + c) == weight * es[0].quota + weight * c;
    }
  }

  lemma RemaindersBounded(total: nat, weight: int, shares: seq<Share>)
    requires weight > 0
    ensures forall e <- Entries(total, weight, shares) :: 0 <= e.remainder < weight
  {
  }

  lemma {:induction false} CountAll(es: seq<Entry>)
    ensures Total(es, One) == |es|
  {
    if es != [] { CountAll(es[1..]); }
  }

  lemma BelowCount(w: int, r: int, p: int)
    requires w > 0 && p >= 0
    requires 0 <= w * r <= (w - 1) * p
    ensures 0 <= r && (r == 0 || r < p)
  {
  }

  /** The leftover is zero or strictly below the number of shares with a fractional claim. */
  lemma ResidualBelowPositive(total: nat, shares: seq<Share>)
    requires Splittable(total, shares)
    ensures var es := Entries(total, TotalWeight(shares), shares);
      && 0 <= Residual(total, es)
      && (Residual(total, es) == 0 || Residual(total, es) < Total(es, Positive))
      && Total(es, Positive) <= |shares|
  {
    var w := TotalWeight(shares);
    var es := Entries(total, w, shares);
    var r := Residual(total, es);
    var p := Total(es, Positive);
    EntrySums(total, w, shares);
    RemaindersBounded(total, w, shares);
    assert w * r == w * total - w * Total(es, Quota);
    TotalNonNegative(es, Remainder);
    TotalNonNegative(es, Positive);
    TotalBounds(es, Remainder, PositiveTimes(w - 1));
    TotalScaled(es, w - 1);
    TotalBounds(es, Positive, One);
    CountAll(es);
    BelowCount(w, r, p);
  }

  lemma {:induction false} TotalScaled(es: seq<Entry>, c: int)
    ensures Total(es, PositiveTimes(c)) == c * Total(es, Positive)
  {
    if es != [] {
      TotalScaled(es[1..], c);
      var a, b := Positive(es[0]), Total(es[1..], Positive);
      assert c * (a + b) == c * a + c * b;
    }
  }

  lemma ResidualRange(total: nat, shares: seq<Share>)
    requires Splittable(total, shares)
    ensures var es := Entries(total, TotalWeight(shares), shares); 0 <= Residual(total, es) <= |es|
  {
    ResidualBelowPositive(total, shares);
  }
}
