/**
 * Responsibility for shared debts: who carries how many basis points of each debt, kept at exactly
 * 100% by the largest-remainder allocator.
 */
module SharedDebts {
  import opened Prelude
  import opened Allocator
  import opened AllocatorProperties
  import opened Governance

  datatype Responsibility = Responsibility(member: Id, bp: int)

  function Bp(r: Responsibility): int { r.bp }

  function AsWeights(rs: seq<Responsibility>): (ws: seq<Share>)
    ensures |ws| == |rs|
  {
    seq(|rs|, i requires 0 <= i < |rs| => Share(rs[i].member, rs[i].bp))
  }

  function FromParts(parts: seq<Part>): (rs: seq<Responsibility>)
    ensures |rs| == |parts|
  {
    seq(|parts|, i requires 0 <= i < |parts| => Responsibility(parts[i].id, parts[i].amount))
  }

  function EqualWeights(ws: seq<Share>): (r: seq<Share>)
    ensures |r| == |ws|
  {
    seq(|ws|, i requires 0 <= i < |ws| => Share(ws[i].id, 1))
  }

  /** Splits 100% by the weights, equally when they are all zero. */
  function AllocateBp(ws: seq<Share>): Result<seq<Responsibility>> {
    var normalized := if forall w <- ws :: w.weight == 0 then EqualWeights(ws) else ws;
    var a := Allocation(FULL_BP, normalized);
    if a.Err? then Err(a.error) else Ok(FromParts(a.value))
  }

  function DefaultResponsibilities(contributions: seq<Responsibility>): Result<seq<Responsibility>> {
    if contributions == [] then Ok([]) else AllocateBp(AsWeights(contributions))
  }

  function ValidateSumTo100(rs: seq<Responsibility>): Result<()> {
    if Total(rs, Bp) != FULL_BP then Err(Invariant) else Ok(())
  }

  function Without(rs: seq<Responsibility>, member: Id): seq<Responsibility> {
    if rs == [] then []
    else (if rs[0].member == member then [] else [rs[0]]) + Without(rs[1..], member)
  }

  predicate Holds(rs: seq<Responsibility>, member: Id) { exists r <- rs :: r.member == member }

  function ReassignOnLeave(rs: seq<Responsibility>, leaving: Id): Result<seq<Responsibility>> {
    var remaining := Without(rs, leaving);
    if remaining == [] then Ok([]) else AllocateBp(AsWeights(remaining))
  }

  /** One member's share is set; the others are rescaled into what is left. */
  function SetShare(current: seq<Responsibility>, member: Id, bp: int): Result<seq<Responsibility>> {
    if bp < 0 || bp > FULL_BP then Err(Validation)
    else
      var others := Without(current, member);
      var remaining := FULL_BP - bp;
      if others == [] && remaining != 0 then Err(Invariant)
      else
        var rescaled := Allocation(remaining, AsWeights(others));
        if rescaled.Err? then Err(rescaled.error)
        else
          var shares := [Responsibility(member, bp)] + FromParts(rescaled.value);
          var check := ValidateSumTo100(shares);
          if check.Err? then Err(check.error) else Ok(shares)
  }

  // --- what a responsibility set must be ----------------------------------------------------

  ghost predicate DistinctMembers(rs: seq<Responsibility>) {
    forall i, j | 0 <= i < j < |rs| :: rs[i].member != rs[j].member
  }

  /** Distinct members, no negative share, and either nobody or exactly 100%. */
  ghost predicate ValidSet(rs: seq<Responsibility>) {
    DistinctMembers(rs) && (forall r <- rs :: r.bp >= 0) && (rs == [] || Total(rs, Bp) == FULL_BP)
  }

  lemma {:induction false} PartsTotalBp(parts: seq<Part>)
    ensures Total(FromParts(parts), Bp) == Total(parts, Amount)
  {
    if parts != [] {
      assert FromParts(parts)[1..] == FromParts(parts[1..]);
      PartsTotalBp(parts[1..]);
    }
  }

  lemma {:induction false} WeightsTotal(rs: seq<Responsibility>)
    ensures TotalWeight(AsWeights(rs)) == Total(rs, Bp)
  {
    if rs != [] {
      assert AsWeights(rs)[1..] == AsWeights(rs[1..]);
      WeightsTotal(rs[1..]);
    }
  }

  lemma {:induction false} EqualTotal(ws: seq<Share>)
    ensures TotalWeight(EqualWeights(ws)) == |ws|
  {
    if ws != [] {
      assert EqualWeights(ws)[1..] == EqualWeights(ws[1..]);
      EqualTotal(ws[1..]);
    }
  }

  /** Splitting any total over distinct members keeps members and order and adds up exactly. */
  lemma SplitIsExact(total: nat, ws: seq<Share>)
    requires DistinctIds(ws) && Splittable(total, ws)
    ensures Allocation(total, ws).Ok?
    ensures var parts := Allocation(total, ws).value;
      && |parts| == |ws| && Total(FromParts(parts), Bp) == total
      && forall i | 0 <= i < |ws| :: parts[i].id == ws[i].id && parts[i].amount >= 0
  {
    var parts := Hamilton(total, ws);
    Exact(total, ws);
    PartsTotalBp(parts);
    forall i | 0 <= i < |ws| ensures parts[i].id == ws[i].id && parts[i].amount >= 0 {
      QuotaRule(total, ws, i);
    }
  }

  /** Splitting 100% over distinct members always succeeds and sums to exactly 100%. */
  lemma AllocateBpValid(ws: seq<Share>)
    requires ws != [] && DistinctIds(ws) && AllNonNegative(ws)
    ensures AllocateBp(ws).Ok? && ValidSet(AllocateBp(ws).value) && |AllocateBp(ws).value| == |ws|
    ensures forall i | 0 <= i < |ws| :: AllocateBp(ws).value[i].member == ws[i].id
  {
    hide Hamilton;
    TotalNonNegative(ws, Weight);
    EqualTotal(ws);
    if forall w <- ws :: w.weight == 0 {
      SplitIsExact(FULL_BP, EqualWeights(ws));
    } else {
      var w :| w in ws && w.weight != 0;
      assert Weight(w) > 0;
      SplitIsExact(FULL_BP, ws);
    }
  }

  lemma DefaultsValid(contributions: seq<Responsibility>)
    requires DistinctMembers(contributions) && forall c <- contributions :: c.bp >= 0
    ensures DefaultResponsibilities(contributions).Ok? && ValidSet(DefaultResponsibilities(contributions).value)
    ensures |DefaultResponsibilities(contributions).value| == |contributions|
  {
    if contributions != [] {
      AllocateBpValid(AsWeights(contributions));
    }
  }

  // --- leaving ------------------------------------------------------------------------------

  lemma {:induction false} WithoutMembers(rs: seq<Responsibility>, member: Id)
    ensures forall r :: r in Without(rs, member) <==> r in rs && r.member != member
    ensures !Holds(rs, member) ==> Without(rs, member) == rs
  {
    if rs != [] {
      WithoutMembers(rs[1..], member);
      assert rs == [rs[0]] + rs[1..];
    }
  }

  lemma {:induction false} WithoutTotal(rs: seq<Responsibility>, member: Id)
    requires forall r <- rs :: r.bp >= 0
    ensures Total(Without(rs, member), Bp) <= Total(rs, Bp)
  {
    if rs != [] {
      WithoutTotal(rs[1..], member);
      TotalConcat(if rs[0].member == member then [] else [rs[0]], Without(rs[1..], member), Bp);
      assert rs[0].bp >= 0;
    }
  }

  lemma {:induction false} WithoutDistinct(rs: seq<Responsibility>, member: Id)
    requires DistinctMembers(rs)
    ensures DistinctMembers(Without(rs, member))
  {
    if rs != [] {
      var tail := Without(rs[1..], member);
      assert DistinctMembers(rs[1..]) by {
        assert forall i, j | 0 <= i < j < |rs[1..]| :: rs[1..][i] == rs[i + 1] && rs[1..][j] == rs[j + 1];
      }
      WithoutDistinct(rs[1..], member);
      WithoutMembers(rs[1..], member);
      forall j | 0 <= j < |tail| ensures tail[j].member != rs[0].member {
        assert tail[j] in rs[1..];
      }
    }
  }

  /** What is left of a valid set is distinct, non-negative and at most 100%. */
  lemma WithoutMeaning(rs: seq<Responsibility>, member: Id)
    requires ValidSet(rs)
    ensures var others := Without(rs, member);
      && DistinctMembers(others) && (forall r <- others :: r.bp >= 0 && r.member != member)
      && Total(others, Bp) <= FULL_BP
    ensures !Holds(rs, member) ==> Without(rs, member) == rs
  {
    WithoutMembers(rs, member);
    WithoutDistinct(rs, member);
    WithoutTotal(rs, member);
  }

  lemma WeightsNonNegative(rs: seq<Responsibility>)
    requires forall r <- rs :: r.bp >= 0
    ensures AllNonNegative(AsWeights(rs))
  {
    var ws := AsWeights(rs);
    forall w | w in ws ensures w.weight >= 0 {
      var i :| 0 <= i < |ws| && ws[i] == w;
      assert rs[i] in rs;
    }
  }

  /** At a total no smaller than the weights' own, nobody gets less than their weight. */
  lemma RescaleUp(total: nat, ws: seq<Share>, i: nat)
    requires DistinctIds(ws) && Splittable(total, ws) && i < |ws| && TotalWeight(ws) <= total
    ensures Hamilton(total, ws)[i].id == ws[i].id && Hamilton(total, ws)[i].amount >= ws[i].weight
    ensures TotalWeight(ws) == total ==> Hamilton(total, ws)[i].amount == ws[i].weight
  {
    assert ws[i] in ws;
    QuotaRule(total, ws, i);
    ScaledQuotient(total, ws[i].weight, TotalWeight(ws));
  }

  lemma ScaledQuotient(total: nat, x: nat, w: int)
    requires 0 < w <= total
    ensures total * x / w >= x
    ensures w == total ==> total * x / w == x && total * x % w == 0
  {
    var n := total * x;
    FloorAndRemainder(n, w);
    assert n - x * w == (total - w) * x;
    assert (total - w) * x >= 0;
    QuotientsOrdered(w, n / w, n % w, x, 0);
    if w == total { QuotientsOrdered(w, x, 0, n / w, n % w); }
  }

  lemma RescaledNotBelow(before: seq<Responsibility>)
    requires DistinctMembers(before) && (forall r <- before :: r.bp >= 0)
    requires before != [] && Total(before, Bp) <= FULL_BP
    ensures var a := AllocateBp(AsWeights(before));
      && a.Ok? && ValidSet(a.value) && |a.value| == |before|
      && forall i | 0 <= i < |before| :: a.value[i].member == before[i].member && a.value[i].bp >= before[i].bp
  {
    hide Hamilton, ValidSet, AllocateBp;
    var ws := AsWeights(before);
    WeightsNonNegative(before);
    AllocateBpValid(ws);
    WeightsTotal(before);
    var after := AllocateBp(ws).value;
    forall i | 0 <= i < |before| ensures after[i].bp >= before[i].bp {
      RescaledRow(ws, i);
    }
  }

  lemma RescaledRow(ws: seq<Share>, i: nat)
    requires DistinctIds(ws) && AllNonNegative(ws) && TotalWeight(ws) <= FULL_BP && i < |ws|
    requires AllocateBp(ws).Ok? && |AllocateBp(ws).value| == |ws| && ValidSet(AllocateBp(ws).value)
    ensures AllocateBp(ws).value[i].bp >= ws[i].weight
  {
    hide Hamilton;
    TotalNonNegative(ws, Weight);
    assert ws[i] in ws;
    if forall w <- ws :: w.weight == 0 {
      assert AllocateBp(ws).value[i] in AllocateBp(ws).value;
    } else {
      var w :| w in ws && w.weight != 0;
      assert Weight(w) > 0;
      RescaleUp(FULL_BP, ws, i);
    }
  }

  lemma EmptyValid()
    ensures ValidSet([])
  {
  }

  /** When a member leaves, the rest carry exactly 100% again and nobody carries less than before. */
  lemma LeaveNeverDecreases(rs: seq<Responsibility>, leaving: Id)
    requires ValidSet(rs)
    ensures ReassignOnLeave(rs, leaving).Ok?
    ensures var after := ReassignOnLeave(rs, leaving).value; var before := Without(rs, leaving);
      && ValidSet(after) && |after| == |before| && !Holds(after, leaving)
      && forall i | 0 <= i < |before| :: after[i].member == before[i].member && after[i].bp >= before[i].bp
  {
    hide AllocateBp, Without, ValidSet, DistinctMembers;
    var before := Without(rs, leaving);
    WithoutMeaning(rs, leaving);
    EmptyValid();
    if before != [] {
      RescaledNotBelow(before);
      var after := ReassignOnLeave(rs, leaving).value;
      forall i | 0 <= i < |after| ensures after[i].member != leaving {
        assert before[i] in before;
      }
    }
  }

  /** Reassigning a member who holds nothing changes nothing, so a redelivered event is harmless. */
  lemma ReassignAbsentIsNoOp(rs: seq<Responsibility>, leaving: Id)
    requires ValidSet(rs) && !Holds(rs, leaving)
    ensures ReassignOnLeave(rs, leaving) == Ok(rs)
  {
    hide Hamilton;
    WithoutMeaning(rs, leaving);
    if rs != [] {
      var ws := AsWeights(rs);
      WeightsNonNegative(rs);
      WeightsTotal(rs);
      if forall w <- ws :: w.weight == 0 {
        TotalZero(ws, Weight);
      }
      forall i | 0 <= i < |rs| ensures Hamilton(FULL_BP, ws)[i] == Part(rs[i].member, rs[i].bp) {
        RescaleUp(FULL_BP, ws, i);
      }
      assert FromParts(Hamilton(FULL_BP, ws)) == rs;
    }
  }

  // --- setting a share ----------------------------------------------------------------------

  /** The others can absorb the rest exactly when there is no rest or one of them carries something. */
  ghost predicate CanSet(current: seq<Responsibility>, member: Id, bp: int) {
    0 <= bp <= FULL_BP && (bp == FULL_BP || exists r <- current :: r.member != member && r.bp > 0)
  }

  lemma ZeroSplit(ws: seq<Share>, total: nat)
    requires AllNonNegative(ws) && TotalWeight(ws) == 0
    ensures Allocation(total, ws).Ok? && Total(FromParts(Allocation(total, ws).value), Bp) == 0
    ensures |Allocation(total, ws).value| == |ws|
    ensures forall i | 0 <= i < |ws| :: Allocation(total, ws).value[i] == Part(ws[i].id, 0)
  {
    TotalZero(FromParts(Allocation(total, ws).value), Bp);
  }

  lemma OthersSplit(others: seq<Responsibility>, remaining: nat)
    requires DistinctMembers(others) && forall r <- others :: r.bp >= 0
    ensures var a := Allocation(remaining, AsWeights(others));
      && a.Ok? && |a.value| == |others|
      && (forall i | 0 <= i < |others| :: a.value[i].id == others[i].member && a.value[i].amount >= 0)
      && Total(FromParts(a.value), Bp) == (if exists r <- others :: r.bp > 0 then remaining else 0)
  {
    hide Hamilton;
    var ws := AsWeights(others);
    WeightsNonNegative(others);
    WeightsTotal(others);
    TotalNonNegative(others, Bp);
    if r :| r in others && r.bp > 0 {
      assert Bp(r) > 0;
      SplitIsExact(remaining, ws);
    } else {
      TotalZero(others, Bp);
      ZeroSplit(ws, remaining);
    }
  }

  /**
   * Setting a share succeeds exactly when it is in range and the rest has somewhere to go; the new
   * set gives the member what was asked, keeps the others, and is exactly 100%.
   */
  lemma SetShareMeaning(current: seq<Responsibility>, member: Id, bp: int)
    requires ValidSet(current)
    ensures SetShare(current, member, bp).Ok? <==> CanSet(current, member, bp)
    ensures SetShare(current, member, bp).Ok? ==>
      var after := SetShare(current, member, bp).value; var others := Without(current, member);
      && ValidSet(after) && |after| == |others| + 1 && after[0] == Responsibility(member, bp)
      && forall i | 0 <= i < |others| :: after[i + 1].member == others[i].member
  {
    hide Allocation, Without;
    var others := Without(current, member);
    WithoutMeaning(current, member);
    WithoutMembers(current, member);
    CanSetOthers(current, member);
    if 0 <= bp <= FULL_BP {
      OthersSplit(others, FULL_BP - bp);
      var rescaled := FromParts(Allocation(FULL_BP - bp, AsWeights(others)).value);
      PrependValid(Responsibility(member, bp), others, rescaled);
    }
  }

  lemma CanSetOthers(current: seq<Responsibility>, member: Id)
    ensures (exists r <- current :: r.member != member && r.bp > 0) <==> exists r <- Without(current, member) :: r.bp > 0
  {
    WithoutMembers(current, member);
    if r :| r in current && r.member != member && r.bp > 0 {
      assert r in Without(current, member);
    }
    if r :| r in Without(current, member) && r.bp > 0 {
      assert r in current && r.member != member;
    }
  }

  lemma PrependValid(head: Responsibility, others: seq<Responsibility>, rescaled: seq<Responsibility>)
    requires DistinctMembers(others) && (forall r <- others :: r.member != head.member)
    requires |rescaled| == |others| && head.bp >= 0
    requires forall i | 0 <= i < |others| :: rescaled[i].member == others[i].member && rescaled[i].bp >= 0
    ensures var after := [head] + rescaled;
      && DistinctMembers(after) && (forall r <- after :: r.bp >= 0) && Total(after, Bp) == head.bp + Total(rescaled, Bp)
  {
    var after := [head] + rescaled;
    assert after[1..] == rescaled;
    forall i, j | 0 <= i < j < |after| ensures after[i].member != after[j].member {
      assert others[j - 1] in others;
    }
  }
}
