/**
 * The debt use cases and the member-left consumer in the form the source has: guarded row updates,
 * rows deleted and re-created, a loop over a profile's debts that counts what it changed.
 */
module DebtsService {
  import opened Prelude
  import opened Allocator
  import opened Governance
  import opened Contributions
  import opened PlanProperties
  import opened Tenant
  import opened SharedDebts
  import opened SharedElementRules
  import opened DebtBook

  /** The transaction settled the specified step, or returned its error and wrote nothing. */
  ghost predicate Committed<T>(before: Book, spec: Result<Book>, after: Book, r: Result<T>) {
    after == Settle(before, spec) && (r.Ok? <==> spec.Ok?) && (r.Err? ==> r.error == spec.error)
  }

  /** A committed command is one action of a run, so runs of the methods are the runs of `DebtBook`. */
  lemma CommittedIsAnAction<T>(s: Tenant.State, before: Book, a: WorldAction, after: Book, r: Result<T>)
    requires match a
      case CreateDebt(user, profile, id, balance, order) =>
        Committed(before, DoCreateDebt(s, before, user, profile, id, balance, order), after, r)
      case PayDebt(user, debt, amount, v) => Committed(before, DoPayDebt(s.gov, before, user, debt, amount, v), after, r)
      case SetResponsibility(user, debt, member, bp, v) =>
        Committed(before, DoSetResponsibility(s.gov, before, user, debt, member, bp, v), after, r)
      case MemberLeftDelivered(profile, leaver) => after == DoReassign(before, profile, leaver)
      case InTenant(_) => false
    ensures WorldStep(World(s, before), a) == World(s, after)
  {
    hide DoCreateDebt, DoPayDebt, DoSetResponsibility, DoReassign;
  }

  /** Splits 100% by weight with the allocator; all-zero weights count as equal. */
  method AllocateFull(weights: seq<Share>) returns (r: Result<seq<Responsibility>>)
    ensures r == AllocateBp(weights)
  {
    var allZero := true;
    for i := 0 to |weights|
      invariant allZero <==> forall w <- weights[..i] :: w.weight == 0
    {
      assert weights[..i + 1] == weights[..i] + [weights[i]];
      if weights[i].weight != 0 { allZero := false; }
    }
    assert weights[..|weights|] == weights;
    var parts := AllocateByLargestRemainder(FULL_BP, if allZero then EqualWeights(weights) else weights);
    if parts.Err? { return Err(parts.error); }
    return Ok(FromParts(parts.value));
  }

  /** The new set after one member's share is fixed: validated, rescaled, validated again. */
  method RescaleAround(current: seq<Responsibility>, member: Id, bp: int) returns (r: Result<seq<Responsibility>>)
    ensures r == SetShare(current, member, bp)
  {
    if bp < 0 || bp > FULL_BP { return Err(Validation); }
    var others := Without(current, member);
    var remaining := FULL_BP - bp;
    if |others| == 0 && remaining != 0 { return Err(Invariant); }
    var rescaled := AllocateByLargestRemainder(remaining, AsWeights(others));
    if rescaled.Err? { return Err(rescaled.error); }
    var shares := [Responsibility(member, bp)] + FromParts(rescaled.value);
    var sum := 0;
    for i := 0 to |shares|
      invariant sum == Total(shares[..i], Bp)
    {
      assert shares[..i + 1] == shares[..i] + [shares[i]];
      TotalSnoc(shares[..i], shares[i], Bp);
      sum := sum + shares[i].bp;
    }
    assert shares[..|shares|] == shares;
    if sum != FULL_BP { return Err(Invariant); }
    return Ok(shares);
  }

  lemma NothingReassigned(b: Book, leaver: Id)
    ensures ReassignIn(b, {}, leaver) == b && Affected(b, {}, leaver) == {}
  {
    assert ReassignIn(b, {}, leaver).rows == b.rows;
  }

  lemma AffectedMeaning(b: Book, profile: Id, leaver: Id)
    ensures Affected(b, DebtsOf(b, profile), leaver)
      == set d | d in b.debts && b.debts[d].profile == profile && Holds(RowsOf(b, d), leaver)
  {
  }

  class DebtTables {
    var debts: map<Id, Debt>
    var rows: map<Id, seq<Responsibility>>

    function State(): Book
      reads this
    {
      Book(debts, rows)
    }

    constructor ()
      ensures State() == EmptyBook
    {
      debts, rows := map[], map[];
    }

    // --- repository -------------------------------------------------------------------------

    /** Writes the balance and the next version where the version still matches; 0 rows otherwise. */
    method UpdateVersioned(debt: Id, balance: int, expectedVersion: nat) returns (count: nat)
      modifies this`debts
      ensures var hit := debt in old(debts) && old(debts)[debt].version == expectedVersion;
        && count == (if hit then 1 else 0)
        && debts == if hit then
             old(debts)[debt := old(debts)[debt].(balance := balance, version := expectedVersion + 1)]
           else old(debts)
    {
      if debt !in debts || debts[debt].version != expectedVersion { return 0; }
      debts := debts[debt := debts[debt].(balance := balance, version := expectedVersion + 1)];
      return 1;
    }

    /** Deletes every row of the debt and creates the new ones, one after another. */
    method ReplaceResponsibilities(debt: Id, shares: seq<Responsibility>)
      modifies this`rows
      ensures rows == old(rows)[debt := shares]
    {
      rows := rows[debt := []];
      for i := 0 to |shares|
        invariant rows == old(rows)[debt := shares[..i]]
      {
        assert shares[..i + 1] == shares[..i] + [shares[i]];
        rows := rows[debt := rows[debt] + [shares[i]]];
      }
      assert shares[..|shares|] == shares;
    }

    // --- commands ---------------------------------------------------------------------------

    /** `plan` is the current plan as read, `order` the active members in the order the rows came. */
    method CreateSharedDebt(gov: Gov, plan: Option<Allocations>, user: Id, profile: Id, id: Id, balance: int,
                            order: seq<Id>, ghost con: Con)
      returns (r: Result<Id>)
      requires var v := LatestVersion(con.plans, profile);
        plan == if (profile, v) in con.plans then Some(con.plans[(profile, v)]) else None
      modifies this
      ensures var spec := DoCreateDebt(Tenant.State(gov, con), old(State()), user, profile, id, balance, order);
        Committed(old(State()), spec, State(), r)
    {
      var actor := Guard(gov, profile, user, MANAGE_SHARED_ELEMENTS);
      if actor.Err? { return Err(actor.error); }
      if balance < 0 { return Err(Validation); }
      if id in debts { return Err(UniqueViolation); }
      var shares := DefaultResponsibilitiesFor(plan, profile, order, con);
      if shares.Err? { return Err(shares.error); }
      debts := debts[id := Debt(profile, balance, 0)];
      if |shares.value| > 0 { ReplaceResponsibilities(id, shares.value); }
      return Ok(id);
    }

    method DefaultResponsibilitiesFor(plan: Option<Allocations>, profile: Id, order: seq<Id>, ghost con: Con)
      returns (r: Result<seq<Responsibility>>)
      requires var v := LatestVersion(con.plans, profile);
        plan == if (profile, v) in con.plans then Some(con.plans[(profile, v)]) else None
      ensures r == DefaultsFor(con, profile, order)
    {
      if |order| == 0 { return Ok([]); }
      var weights: seq<Share> := [];
      for i := 0 to |order|
        invariant weights == DefaultWeights(con, profile, order)[..i]
      {
        var bp := if plan.Some? && order[i] in plan.value then plan.value[order[i]] else 0;
        weights := weights + [Share(order[i], bp)];
      }
      assert weights == DefaultWeights(con, profile, order);
      r := AllocateFull(weights);
    }

    method PaySharedDebt(gov: Gov, user: Id, debt: Id, amount: int, expectedVersion: nat) returns (r: Result<Id>)
      modifies this
      ensures Committed(old(State()), DoPayDebt(gov, old(State()), user, debt, amount, expectedVersion), State(), r)
    {
      if debt !in debts { return Err(NotFound); }
      var actor := Guard(gov, debts[debt].profile, user, MANAGE_SHARED_ELEMENTS);
      if actor.Err? { return Err(actor.error); }
      var decision := Pay(debts[debt].balance, amount);
      if decision.Err? { return Err(decision.error); }
      var count := UpdateVersioned(debt, decision.value, expectedVersion);
      if count == 0 { return Err(Conflict); }
      return Ok(debt);
    }

    method SetDebtResponsibility(gov: Gov, user: Id, debt: Id, member: Id, bp: int, expectedVersion: nat)
      returns (r: Result<Id>)
      modifies this
      ensures var spec := DoSetResponsibility(gov, old(State()), user, debt, member, bp, expectedVersion);
        Committed(old(State()), spec, State(), r)
    {
      hide SetShare, Guard;
      if debt !in debts { return Err(NotFound); }
      var actor := Guard(gov, debts[debt].profile, user, SET_DEBT_RESPONSIBILITY);
      if actor.Err? { return Err(actor.error); }
      var shares := RescaleAround(RowsOf(State(), debt), member, bp);
      if shares.Err? { return Err(shares.error); }
      var before := debts;
      var count := UpdateVersioned(debt, debts[debt].balance, expectedVersion);
      if count == 0 { return Err(Conflict); }
      if member !in gov.members {
        debts := before;  // the foreign key rolls the transaction back
        return Err(ForeignKeyViolation);
      }
      ReplaceResponsibilities(debt, shares.value);
      return Ok(debt);
    }

    // --- member left ------------------------------------------------------------------------

    method ReassignForLeftMember(profile: Id, leaver: Id) returns (changed: nat)
      requires BookInv(State())
      modifies this`rows
      ensures State() == DoReassign(old(State()), profile, leaver)
      ensures changed == |set d | d in old(debts) && old(debts)[d].profile == profile && Holds(RowsOf(old(State()), d), leaver)|
    {
      hide BookInv, ReassignOnLeave, ReassignIn, Affected, RowsOf;
      ghost var b := State();
      changed := 0;
      var all := DebtsOf(State(), profile);
      var todo := all;
      ghost var done: set<Id> := {};
      NothingReassigned(b, leaver);
      while todo != {}
        invariant todo + done == all && todo !! done
        invariant State() == ReassignIn(b, done, leaver)
        invariant changed == |Affected(b, done, leaver)|
        decreases todo
      {
        var debt :| debt in todo;
        ReassignOneMore(b, done, debt, leaver);
        var shares := RowsOf(State(), debt);
        if Holds(shares, leaver) {
          var reassigned := AllocateRemaining(shares, leaver);
          ReplaceResponsibilities(debt, reassigned.value);
          changed := changed + 1;
        }
        todo := todo - {debt};
        done := done + {debt};
      }
      assert done == all;
      AffectedMeaning(b, profile, leaver);
    }

    method AllocateRemaining(shares: seq<Responsibility>, leaver: Id) returns (r: Result<seq<Responsibility>>)
      ensures r == ReassignOnLeave(shares, leaver)
    {
      var remaining := Without(shares, leaver);
      if |remaining| == 0 { return Ok([]); }
      r := AllocateFull(AsWeights(remaining));
    }
  }
}
