/** Plans, the cross-profile cap and what a period's snapshot keeps, step by step. */
module PlanProperties {
  import opened Prelude
  import opened Governance
  import opened GovernanceProperties
  import opened Contributions

  // --- plan versions ------------------------------------------------------------------------

  /** The versions of every profile are 1, 2, ..., n. */
  ghost predicate Contiguous(plans: Plans) {
    forall k <- plans :: k.1 >= 1 && forall v: nat | 1 <= v <= k.1 :: (k.0, v) in plans
  }

  lemma VersionsMember(plans: Plans, profile: Id, v: nat)
    ensures v in Versions(plans, profile) <==> (profile, v) in plans
  {
    if (profile, v) in plans { assert (profile, v).1 in Versions(plans, profile); }
  }

  lemma LatestBounds(plans: Plans, profile: Id, v: nat)
    requires (profile, v) in plans
    ensures v <= LatestVersion(plans, profile) && (profile, LatestVersion(plans, profile)) in plans
  {
    VersionsMember(plans, profile, v);
    VersionsMember(plans, profile, LatestVersion(plans, profile));
  }

  /** The plan versions of a profile are exactly 1 to the latest; 0 stands for no plan. */
  lemma VersionsExactly(plans: Plans, profile: Id, v: nat)
    requires Contiguous(plans)
    ensures (profile, v) in plans <==> 1 <= v <= LatestVersion(plans, profile)
  {
    var n := LatestVersion(plans, profile);
    if (profile, v) in plans { LatestBounds(plans, profile, v); }
    if n >= 1 {
      assert n in Versions(plans, profile);
      VersionsMember(plans, profile, n);
    }
  }

  /** Version `v` is the latest as soon as it exists and its successor range is empty. */
  lemma LatestIs(plans: Plans, profile: Id, v: nat)
    requires Contiguous(plans) && (v == 0 || (profile, v) in plans) && (profile, v + 1) !in plans
    ensures LatestVersion(plans, profile) == v
  {
    VersionsExactly(plans, profile, v);
    VersionsExactly(plans, profile, v + 1);
  }

  /** Adding version n + 1, or rewriting version n, leaves versions contiguous and other profiles alone. */
  lemma WritePlan(plans: Plans, profile: Id, v: nat, a: Allocations, plans': Plans)
    requires Contiguous(plans) && plans' == plans[(profile, v) := a]
    requires v >= 1 && (v == LatestVersion(plans, profile) || v == LatestVersion(plans, profile) + 1)
    ensures Contiguous(plans') && LatestVersion(plans', profile) == v
    ensures forall q | q != profile :: LatestVersion(plans', q) == LatestVersion(plans, q)
  {
    forall k | k in plans' ensures k.1 >= 1 && forall u: nat | 1 <= u <= k.1 :: (k.0, u) in plans' {
      if k == (profile, v) {
        forall u: nat | 1 <= u <= v ensures (profile, u) in plans' {
          VersionsExactly(plans, profile, u);
        }
      }
    }
    VersionsExactly(plans, profile, v + 1);
    LatestIs(plans', profile, v);
    forall q | q != profile ensures LatestVersion(plans', q) == LatestVersion(plans, q) {
      var n := LatestVersion(plans, q);
      VersionsExactly(plans, q, n);
      VersionsExactly(plans, q, n + 1);
      LatestIs(plans', q, n);
    }
  }

  // --- allocations --------------------------------------------------------------------------

  /** A plan row is in range and belongs to a member of the profile who has joined it. */
  ghost predicate RowOk(g: Gov, profile: Id, m: Id, bp: int) {
    0 <= bp <= FULL_BP && m in g.members && g.members[m].profile == profile
    && g.members[m].status != INVITED
  }

  ghost predicate AllocationsOk(g: Gov, plans: Plans) {
    forall k <- plans :: forall m <- plans[k] :: RowOk(g, k.0, m, plans[k][m])
  }

  lemma BpRange(g: Gov, plans: Plans, profile: Id, v: nat, m: Id)
    requires AllocationsOk(g, plans)
    ensures 0 <= BpAt(plans, profile, v, m) <= FULL_BP
    ensures BpAt(plans, profile, v, m) > 0 ==> RowOk(g, profile, m, BpAt(plans, profile, v, m))
  {
  }

  /** An INVITED membership appears in no plan, which is why accepting an invitation is safe for the cap. */
  lemma InvitedHasNoAllocation(g: Gov, plans: Plans, k: (Id, nat), m: Id)
    requires AllocationsOk(g, plans) && m in g.members && g.members[m].status == INVITED && k in plans
    ensures m !in plans[k]
  {
  }

  ghost predicate Cap(g: Gov, plans: Plans) {
    forall u: Id :: CommittedBy(g, plans, u) <= FULL_BP
  }

  ghost predicate PlanInv(g: Gov, plans: Plans) {
    Contiguous(plans) && AllocationsOk(g, plans) && Cap(g, plans)
  }

  // --- the cap under contribution commands --------------------------------------------------

  /** A user has at most one membership in a profile, so the commitments split into there and elsewhere. */
  lemma SplitCommitment(g: Gov, user: Id, profile: Id, f: Id -> int)
    requires Indexed(g)
    ensures var there := UserActive(g, user) - UserActiveElsewhere(g, user, profile);
      && SumSet(UserActive(g, user), f) == SumSet(UserActiveElsewhere(g, user, profile), f) + SumSet(there, f)
      && (there == {} || exists m :: there == {m} && m in g.members && g.members[m].profile == profile)
  {
    var elsewhere := UserActiveElsewhere(g, user, profile);
    var there := UserActive(g, user) - elsewhere;
    assert elsewhere + there == UserActive(g, user);
    SumSetUnion(elsewhere, there, f);
    if there != {} {
      var m :| m in there;
      forall x | x in there ensures x == m {
        assert g.byPair[(profile, user)] == x;
        assert g.byPair[(profile, user)] == m;
      }
      assert there == {m};
    }
  }

  lemma SumSingleton(m: Id, f: Id -> int)
    ensures SumSet({m}, f) == f(m)
  {
    SumSetRemove({m}, f, m);
    assert {m} - {m} == {};
  }

  /**
   * A plan change in one profile keeps everyone's cap when each active member there ends no higher
   * than before, or within what the rest of their profiles leaves.
   */
  lemma CapAfter(g: Gov, plans: Plans, plans': Plans, profile: Id)
    requires Indexed(g) && PlanInv(g, plans) && AllocationsOk(g, plans')
    requires forall x <- g.members :: g.members[x].profile != profile ==> CurrentBp(g, plans')(x) == CurrentBp(g, plans)(x)
    requires forall m <- ActiveMembers(g, profile) ::
      || CurrentBp(g, plans')(m) <= CurrentBp(g, plans)(m)
      || CommittedElsewhere(g, plans, g.members[m].user, profile) + CurrentBp(g, plans')(m) <= FULL_BP
    ensures Cap(g, plans')
  {
    var f, f' := CurrentBp(g, plans), CurrentBp(g, plans');
    forall u: Id ensures CommittedBy(g, plans', u) <= FULL_BP {
      var elsewhere := UserActiveElsewhere(g, u, profile);
      var there := UserActive(g, u) - elsewhere;
      SplitCommitment(g, u, profile, f);
      SplitCommitment(g, u, profile, f');
      SumSetSame(elsewhere, f, f');
      assert CommittedBy(g, plans, u) <= FULL_BP;
      if there != {} {
        var m :| there == {m};
        SumSingleton(m, f);
        SumSingleton(m, f');
        assert m in there && m in ActiveMembers(g, profile);
        BpRange(g, plans, profile, LatestVersion(plans, profile), m);
      }
    }
  }

  /** What a write of the latest version of one profile does to everyone's current percentage. */
  lemma CurrentBpAfter(g: Gov, plans: Plans, profile: Id, v: nat, a: Allocations, plans': Plans, x: Id)
    requires plans' == plans[(profile, v) := a] && LatestVersion(plans', profile) == v
    requires forall q | q != profile :: LatestVersion(plans', q) == LatestVersion(plans, q)
    requires x in g.members
    ensures CurrentBp(g, plans')(x) ==
      if g.members[x].profile == profile then (if x in a then a[x] else 0) else CurrentBp(g, plans)(x)
  {
  }

  /** The cap after such a write, in terms of the rows written. */
  lemma WriteKeepsCap(g: Gov, plans: Plans, profile: Id, v: nat, a: Allocations, plans': Plans)
    requires Indexed(g) && PlanInv(g, plans) && AllocationsOk(g, plans')
    requires plans' == plans[(profile, v) := a] && LatestVersion(plans', profile) == v
    requires forall q | q != profile :: LatestVersion(plans', q) == LatestVersion(plans, q)
    requires forall m <- ActiveMembers(g, profile) :: m in a ==>
      || a[m] <= BpAt(plans, profile, LatestVersion(plans, profile), m)
      || CommittedElsewhere(g, plans, g.members[m].user, profile) + a[m] <= FULL_BP
    ensures Cap(g, plans')
  {
    forall x | x in g.members && g.members[x].profile != profile
      ensures CurrentBp(g, plans')(x) == CurrentBp(g, plans)(x)
    {
      CurrentBpAfter(g, plans, profile, v, a, plans', x);
    }
    forall m | m in ActiveMembers(g, profile)
      ensures CurrentBp(g, plans')(m) <= CurrentBp(g, plans)(m)
        || CommittedElsewhere(g, plans, g.members[m].user, profile) + CurrentBp(g, plans')(m) <= FULL_BP
    {
      CurrentBpAfter(g, plans, profile, v, a, plans', m);
      BpRange(g, plans, profile, LatestVersion(plans, profile), m);
    }
    CapAfter(g, plans, plans', profile);
  }

  lemma SetAllocationKeeps(g: Gov, c: Con, user: Id, profile: Id, member: Id, bp: int)
    requires Indexed(g) && PlanInv(g, c.plans) && DoSetAllocation(g, c, user, profile, member, bp).Ok?
    ensures PlanInv(g, DoSetAllocation(g, c, user, profile, member, bp).value.plans)
  {
    var v, a := WriteAllocationEffect(g, c, profile, member, bp);
    var plans' := WriteAllocation(c, profile, member, bp).plans;
    WriteKeepsCap(g, c.plans, profile, v, a[member := bp], plans');
  }

  /** The one row an allocation writes: in the current plan, or in version 1 when there was none. */
  lemma WriteAllocationEffect(g: Gov, c: Con, profile: Id, member: Id, bp: int) returns (v: nat, a: Allocations)
    requires PlanInv(g, c.plans)
    requires RowOk(g, profile, member, bp)
    ensures var plans' := WriteAllocation(c, profile, member, bp).plans;
      && v >= 1 && v == LatestVersion(plans', profile)
      && (v == LatestVersion(c.plans, profile) || (v == 1 && LatestVersion(c.plans, profile) == 0))
      && a == (if (profile, v) in c.plans then c.plans[(profile, v)] else map[])
      && plans' == c.plans[(profile, v) := a[member := bp]]
      && Contiguous(plans') && AllocationsOk(g, plans')
      && (forall q | q != profile :: LatestVersion(plans', q) == LatestVersion(c.plans, q))
    ensures var w := WriteAllocation(c, profile, member, bp);
      && w.periods == c.periods && w.records == c.records && w.income == c.income
      && w.log == c.log + [AllocationSet(profile, v, member, bp)]
  {
    var n := LatestVersion(c.plans, profile);
    VersionsExactly(c.plans, profile, n);
    VersionsExactly(c.plans, profile, 1);
    v := if n >= 1 then n else 1;
    a := if (profile, v) in c.plans then c.plans[(profile, v)] else map[];
    var plans' := WriteAllocation(c, profile, member, bp).plans;
    assert plans' == c.plans[(profile, v) := a[member := bp]];
    WritePlan(c.plans, profile, v, a[member := bp], plans');
  }

  // --- redistribution -----------------------------------------------------------------------

  lemma {:induction false} ShapeMeaning(allocs: seq<NewShare>, seen: set<Id>)
    requires ValidShape(allocs, seen)
    ensures forall i | 0 <= i < |allocs| :: 0 <= allocs[i].bp <= FULL_BP && allocs[i].member !in seen
    ensures forall i, j | 0 <= i < j < |allocs| :: allocs[i].member != allocs[j].member
    decreases |allocs|
  {
    if allocs != [] {
      ShapeMeaning(allocs[1..], seen + {allocs[0].member});
      assert forall i | 1 <= i < |allocs| :: allocs[i] == allocs[1..][i - 1];
    }
  }

  lemma {:induction false} TargetsMeaning(g: Gov, plans: Plans, profile: Id, allocs: seq<NewShare>, i: nat)
    requires CheckTargets(g, plans, profile, allocs).Ok? && i < |allocs|
    ensures var m := allocs[i].member;
      && m in g.members && g.members[m].profile == profile && g.members[m].status == ACTIVE
      && CommittedElsewhere(g, plans, g.members[m].user, profile) + allocs[i].bp <= FULL_BP
    decreases |allocs|
  {
    if i > 0 { TargetsMeaning(g, plans, profile, allocs[1..], i - 1); }
  }

  /** With each membership at most once, the new plan holds exactly the rows asked for. */
  lemma {:induction false} NewAllocationsRows(allocs: seq<NewShare>)
    requires forall i, j | 0 <= i < j < |allocs| :: allocs[i].member != allocs[j].member
    ensures forall i | 0 <= i < |allocs| ::
      allocs[i].member in NewAllocations(allocs) && NewAllocations(allocs)[allocs[i].member] == allocs[i].bp
    ensures forall m <- NewAllocations(allocs) :: exists i :: 0 <= i < |allocs| && allocs[i].member == m
    decreases |allocs|
  {
    if allocs != [] {
      var rest := allocs[..|allocs| - 1];
      NewAllocationsRows(rest);
      forall m | m in NewAllocations(allocs) ensures exists i :: 0 <= i < |allocs| && allocs[i].member == m {
        if m != allocs[|allocs| - 1].member {
          assert m in NewAllocations(rest);
          var i :| 0 <= i < |rest| && rest[i].member == m;
          assert allocs[i].member == m;
        } else {
          assert allocs[|allocs| - 1].member == m;
        }
      }
    }
  }

  lemma RedistributeRow(g: Gov, plans: Plans, profile: Id, allocs: seq<NewShare>, m: Id)
    requires ValidShape(allocs, {}) && CheckTargets(g, plans, profile, allocs).Ok?
    requires m in NewAllocations(allocs)
    ensures RowOk(g, profile, m, NewAllocations(allocs)[m])
    ensures CommittedElsewhere(g, plans, g.members[m].user, profile) + NewAllocations(allocs)[m] <= FULL_BP
  {
    ShapeMeaning(allocs, {});
    NewAllocationsRows(allocs);
    var i :| 0 <= i < |allocs| && allocs[i].member == m;
    TargetsMeaning(g, plans, profile, allocs, i);
  }

  lemma RedistributeKeeps(g: Gov, c: Con, user: Id, profile: Id, allocs: seq<NewShare>)
    requires Indexed(g) && PlanInv(g, c.plans) && DoRedistribute(g, c, user, profile, allocs).Ok?
    ensures PlanInv(g, DoRedistribute(g, c, user, profile, allocs).value.plans)
  {
    var v := LatestVersion(c.plans, profile) + 1;
    var a := NewAllocations(allocs);
    var plans' := c.plans[(profile, v) := a];
    WritePlan(c.plans, profile, v, a, plans');
    forall m | m in a
      ensures RowOk(g, profile, m, a[m])
      ensures CommittedElsewhere(g, c.plans, g.members[m].user, profile) + a[m] <= FULL_BP
    {
      RedistributeRow(g, c.plans, profile, allocs, m);
    }
    assert AllocationsOk(g, plans');
    WriteKeepsCap(g, c.plans, profile, v, a, plans');
  }

  lemma {:induction false} RollAllKeepsPlans(g: Gov, c: Con, due: seq<nat>, now: int)
    ensures RollAll(g, c, due, now).plans == c.plans
  {
    if due != [] { RollAllKeepsPlans(g, c, due[..|due| - 1], now); }
  }

  lemma ConStepKeepsPlans(g: Gov, c: Con, cmd: ConCommand)
    requires Indexed(g) && PlanInv(g, c.plans)
    ensures PlanInv(g, ConStep(g, c, cmd).plans)
  {
    if ConExec(g, c, cmd).Ok? {
      match cmd
      case SetAllocation(user, profile, member, bp) => SetAllocationKeeps(g, c, user, profile, member, bp);
      case Redistribute(user, profile, allocs) => RedistributeKeeps(g, c, user, profile, allocs);
      case Rollover(due, now) => RollAllKeepsPlans(g, c, due, now);
      case SetDeclaredIncome(_, _, _, _) =>
      case RecordContribution(_, _, _, _, _) =>
    }
  }

  // --- the cap under governance commands ----------------------------------------------------

  /**
   * Whatever governance does, nobody's commitments grow: a row that turns ACTIVE was INVITED or is
   * new, and neither appears in a plan.
   */
  lemma GovStepKeepsPlans(g: Gov, g': Gov, plans: Plans)
    requires PlanInv(g, plans) && MembersProgress(g.members, g'.members)
    ensures PlanInv(g', plans)
  {
    assert AllocationsOk(g', plans);
    forall u: Id ensures CommittedBy(g', plans, u) <= FULL_BP {
      CommitmentNoMore(g, g', plans, u);
      assert CommittedBy(g, plans, u) <= FULL_BP;
    }
  }

  lemma CommitmentNoMore(g: Gov, g': Gov, plans: Plans, u: Id)
    requires AllocationsOk(g, plans) && MembersProgress(g.members, g'.members)
    ensures CommittedBy(g', plans, u) <= CommittedBy(g, plans, u)
  {
    var f, f' := CurrentBp(g, plans), CurrentBp(g', plans);
    forall x | x in UserActive(g', u) ensures f'(x) == f(x) {
      BpRange(g, plans, g'.members[x].profile, LatestVersion(plans, g'.members[x].profile), x);
    }
    SumSetSame(UserActive(g', u), f', f);
    forall x | x in UserActive(g, u) ensures 0 <= f(x) {
      BpRange(g, plans, g.members[x].profile, LatestVersion(plans, g.members[x].profile), x);
    }
    forall x | x in UserActive(g', u) && x !in UserActive(g, u) ensures f(x) == 0 {
      if x in g.members {
        assert g.members[x].status == INVITED;
        BpRange(g, plans, g.members[x].profile, LatestVersion(plans, g.members[x].profile), x);
      }
    }
    SumSetNoMore(UserActive(g', u), UserActive(g, u), f);
  }

  // --- history ------------------------------------------------------------------------------

  /** Rows of the period table keep everything but their open flag, and never reopen. */
  ghost predicate SnapshotsKept(ps: seq<Period>, ps': seq<Period>) {
    |ps| <= |ps'| && forall i | 0 <= i < |ps| ::
      ps'[i].(open := ps[i].open) == ps[i] && (ps'[i].open ==> ps[i].open)
  }

  lemma {:induction false} RollAllKeepsSnapshots(g: Gov, c: Con, due: seq<nat>, now: int)
    ensures SnapshotsKept(c.periods, RollAll(g, c, due, now).periods)
  {
    if due != [] { RollAllKeepsSnapshots(g, c, due[..|due| - 1], now); }
  }

  lemma ConStepKeepsSnapshots(g: Gov, c: Con, cmd: ConCommand)
    ensures SnapshotsKept(c.periods, ConStep(g, c, cmd).periods)
  {
    if cmd.Rollover? { RollAllKeepsSnapshots(g, c, cmd.due, cmd.now); }
  }

  /** The snapshot of period `i` names a plan version that is no longer the one being written. */
  ghost predicate Superseded(c: Con, i: nat)
    requires i < |c.periods|
  {
    c.periods[i].planVersion < LatestVersion(c.plans, c.periods[i].profile)
  }

  /** Rewriting one row of the current version. */
  ghost predicate InPlace(plans: Plans, profile: Id, member: Id, bp: int, plans': Plans) {
    var k := (profile, LatestVersion(plans, profile));
    k in plans && plans' == plans[k := plans[k][member := bp]]
  }

  ghost predicate NewVersion(plans: Plans, profile: Id, a: Allocations, plans': Plans) {
    plans' == plans[(profile, LatestVersion(plans, profile) + 1) := a]
  }

  /** The only ways a contribution command moves the plan table. */
  ghost predicate Moved(plans: Plans, cmd: ConCommand, plans': Plans) {
    || plans' == plans
    || (cmd.SetAllocation? && InPlace(plans, cmd.profile, cmd.member, cmd.bp, plans'))
    || exists p: Id, a: Allocations :: NewVersion(plans, p, a, plans')
  }

  lemma SetAllocationMoves(g: Gov, c: Con, user: Id, profile: Id, member: Id, bp: int)
    requires PlanInv(g, c.plans) && DoSetAllocation(g, c, user, profile, member, bp).Ok?
    ensures Moved(c.plans, SetAllocation(user, profile, member, bp), DoSetAllocation(g, c, user, profile, member, bp).value.plans)
  {
    var v, a := WriteAllocationEffect(g, c, profile, member, bp);
    var plans' := WriteAllocation(c, profile, member, bp).plans;
    VersionsExactly(c.plans, profile, v);
    if v == LatestVersion(c.plans, profile) {
      assert InPlace(c.plans, profile, member, bp, plans');
    } else {
      assert NewVersion(c.plans, profile, a[member := bp], plans');
    }
  }

  lemma RedistributeMoves(g: Gov, c: Con, user: Id, profile: Id, allocs: seq<NewShare>)
    requires DoRedistribute(g, c, user, profile, allocs).Ok?
    ensures Moved(c.plans, Redistribute(user, profile, allocs), DoRedistribute(g, c, user, profile, allocs).value.plans)
  {
    var plans' := DoRedistribute(g, c, user, profile, allocs).value.plans;
    assert NewVersion(c.plans, profile, NewAllocations(allocs), plans');
  }

  lemma MovedNowhere(plans: Plans, cmd: ConCommand)
    ensures Moved(plans, cmd, plans)
  {
  }

  lemma ConStepMoves(g: Gov, c: Con, cmd: ConCommand)
    requires PlanInv(g, c.plans)
    ensures Moved(c.plans, cmd, ConStep(g, c, cmd).plans)
  {
    hide PlanInv, Moved;
    MovedNowhere(c.plans, cmd);
    if ConExec(g, c, cmd).Ok? {
      match cmd
      case SetAllocation(user, profile, member, bp) => SetAllocationMoves(g, c, user, profile, member, bp);
      case Redistribute(user, profile, allocs) => RedistributeMoves(g, c, user, profile, allocs);
      case Rollover(due, now) => RollAllKeepsPlans(g, c, due, now);
      case SetDeclaredIncome(_, _, _, _) =>
      case RecordContribution(_, _, _, _, _) =>
    }
  }

  /** A plan version that exists stays, unchanged unless it is the one being written in place. */
  lemma MovedRow(plans: Plans, cmd: ConCommand, plans': Plans, k: (Id, nat))
    requires Contiguous(plans) && Moved(plans, cmd, plans') && k in plans
    ensures k in plans'
    ensures plans'[k] == plans[k] || (
      && cmd.SetAllocation? && k == (cmd.profile, LatestVersion(plans, cmd.profile))
      && plans'[k] == plans[k][cmd.member := cmd.bp])
  {
    VersionsExactly(plans, k.0, LatestVersion(plans, k.0) + 1);
  }

  lemma HistoryRow(c: Con, c': Con, cmd: ConCommand, i: nat)
    requires Contiguous(c.plans) && Contiguous(c'.plans) && Moved(c.plans, cmd, c'.plans)
    requires i < |c.periods| && SnapshotsKept(c.periods, c'.periods)
    requires c.periods[i].planVersion <= LatestVersion(c.plans, c.periods[i].profile)
    ensures HistoryKept(c, c', cmd, i)
  {
    var p := c.periods[i];
    VersionsExactly(c.plans, p.profile, p.planVersion);
    VersionsExactly(c'.plans, p.profile, p.planVersion);
    if p.planVersion >= 1 {
      MovedRow(c.plans, cmd, c'.plans, (p.profile, p.planVersion));
    }
    RowDecides(c, c', cmd, i);
  }

  /** Expectations follow from the one plan row the snapshot names. */
  lemma RowDecides(c: Con, c': Con, cmd: ConCommand, i: nat)
    requires i < |c.periods| && i < |c'.periods| && c'.periods[i].(open := c.periods[i].open) == c.periods[i]
    requires var p := c.periods[i]; var k := (p.profile, p.planVersion);
      && (k in c.plans <==> k in c'.plans)
      && (k in c.plans && c'.plans[k] != c.plans[k] ==>
           && cmd.SetAllocation? && cmd.profile == p.profile
           && p.planVersion == LatestVersion(c.plans, p.profile) >= 1
           && c'.plans[k] == c.plans[k][cmd.member := cmd.bp])
    ensures HistoryKept(c, c', cmd, i)
  {
  }

  /**
   * What a step leaves of a period's history: everything frozen at opening, and the expectations,
   * with one exception. Setting an allocation while the period's snapshot version is still the
   * current one changes that member's expectation and no other.
   */
  ghost predicate HistoryKept(c: Con, c': Con, cmd: ConCommand, i: nat) {
    && i < |c.periods| && i < |c'.periods|
    && c'.periods[i].(open := c.periods[i].open) == c.periods[i]
    && var p := c.periods[i];
      (Expectations(c', i) == Expectations(c, i) || (
        && cmd.SetAllocation? && cmd.profile == p.profile
        && p.planVersion == LatestVersion(c.plans, p.profile) >= 1
        && Expectations(c', i) == (map m | m in p.income ::
             if m == cmd.member then p.income[m] * cmd.bp / FULL_BP else ExpectedAt(c, i, m))))
  }

  lemma HistoryStep(g: Gov, c: Con, cmd: ConCommand, i: nat)
    requires Indexed(g) && PlanInv(g, c.plans) && i < |c.periods|
    requires c.periods[i].planVersion <= LatestVersion(c.plans, c.periods[i].profile)
    ensures HistoryKept(c, ConStep(g, c, cmd), cmd, i)
  {
    ConStepKeepsPlans(g, c, cmd);
    ConStepKeepsSnapshots(g, c, cmd);
    ConStepMoves(g, c, cmd);
    HistoryRow(c, ConStep(g, c, cmd), cmd, i);
  }

  lemma LatestNeverDrops(plans: Plans, cmd: ConCommand, plans': Plans, profile: Id)
    requires Contiguous(plans) && Moved(plans, cmd, plans')
    ensures LatestVersion(plans', profile) >= LatestVersion(plans, profile)
  {
    var n := LatestVersion(plans, profile);
    VersionsExactly(plans, profile, n);
    if n >= 1 {
      MovedRow(plans, cmd, plans', (profile, n));
      LatestBounds(plans', profile, n);
    }
  }

  /** Once a newer plan version exists, no step changes what the period expects. */
  lemma SupersededIsFrozen(g: Gov, c: Con, cmd: ConCommand, i: nat)
    requires Indexed(g) && PlanInv(g, c.plans) && i < |c.periods| && Superseded(c, i)
    ensures var c' := ConStep(g, c, cmd);
      i < |c'.periods| && Superseded(c', i) && Expectations(c', i) == Expectations(c, i)
  {
    hide ConStep;
    HistoryStep(g, c, cmd, i);
    ConStepMoves(g, c, cmd);
    LatestNeverDrops(c.plans, cmd, ConStep(g, c, cmd).plans, c.periods[i].profile);
  }

  /** A successful redistribution supersedes every period its profile has opened so far. */
  lemma RedistributionFreezes(g: Gov, c: Con, user: Id, profile: Id, allocs: seq<NewShare>, i: nat)
    requires Indexed(g) && PlanInv(g, c.plans) && DoRedistribute(g, c, user, profile, allocs).Ok?
    requires i < |c.periods| && c.periods[i].profile == profile
    requires c.periods[i].planVersion <= LatestVersion(c.plans, profile)
    ensures Superseded(DoRedistribute(g, c, user, profile, allocs).value, i)
    ensures Expectations(DoRedistribute(g, c, user, profile, allocs).value, i) == Expectations(c, i)
  {
    hide RequireCapability, CheckTargets, ValidShape, NewAllocations, LatestVersion, Expectations;
    var c' := DoRedistribute(g, c, user, profile, allocs).value;
    var v := LatestVersion(c.plans, profile) + 1;
    WritePlan(c.plans, profile, v, NewAllocations(allocs), c'.plans);
    assert NewVersion(c.plans, profile, NewAllocations(allocs), c'.plans);
    HistoryRow(c, c', Redistribute(user, profile, allocs), i);
  }
}
