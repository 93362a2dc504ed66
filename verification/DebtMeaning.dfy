/**
 * When each debt command succeeds and what it changes, how the shares follow the percentages they come
 * from, and what a debt's balance is after any run.
 */
module DebtMeaning {
  import opened Prelude
  import opened Allocator
  import opened AllocatorProperties
  import opened Governance
  import G = GovernanceProperties
  import opened Authority
  import opened GovernanceMeaning
  import opened Contributions
  import opened ContributionMeaning
  import opened Tenant
  import opened SharedDebts
  import opened DebtBook

  lemma GuardIff(g: Gov, profile: Id, user: Id, c: Capability)
    requires G.Indexed(g)
    ensures Guard(g, profile, user, c).Ok? <==> IsOpen(g, profile) && ActsAs(g, user, profile, RolesFor(c))
  {
    hide RequireCapability;
    CapabilityIff(g, profile, user, c);
  }

  // --- payments -----------------------------------------------------------------------------

  /** A payment lowers exactly one balance by exactly the amount, and only when nothing is overpaid. */
  lemma PayMeaning(g: Gov, b: Book, user: Id, debt: Id, amount: int, v: nat)
    requires G.Indexed(g)
    ensures var r := DoPayDebt(g, b, user, debt, amount, v);
      && (r.Ok? <==>
            && debt in b.debts
            && IsOpen(g, b.debts[debt].profile) && ActsAs(g, user, b.debts[debt].profile, {OWNER, ADMIN})
            && 0 < amount <= b.debts[debt].balance && b.debts[debt].version == v)
      && (r.Ok? ==> r.value == Book(
            b.debts[debt := Debt(b.debts[debt].profile, b.debts[debt].balance - amount, v + 1)], b.rows))
  {
    hide Guard;
    if debt in b.debts { GuardIff(g, b.debts[debt].profile, user, MANAGE_SHARED_ELEMENTS); }
  }

  ghost predicate Accepted(w: World, a: WorldAction, debt: Id) {
    a.PayDebt? && a.debt == debt && DoPayDebt(w.tenant.gov, w.book, a.user, debt, a.amount, a.expectedVersion).Ok?
  }

  /** The accepted payments of one debt over a run. */
  ghost function Paid(w: World, actions: seq<WorldAction>, debt: Id): int
    decreases |actions|
  {
    if actions == [] then 0
    else (if Accepted(w, actions[0], debt) then actions[0].amount else 0)
         + Paid(WorldStep(w, actions[0]), actions[1..], debt)
  }

  lemma BalanceStep(w: World, a: WorldAction, debt: Id)
    requires debt in w.book.debts
    ensures var w' := WorldStep(w, a);
      && debt in w'.book.debts && w'.book.debts[debt].profile == w.book.debts[debt].profile
      && w'.book.debts[debt].balance == w.book.debts[debt].balance - (if Accepted(w, a, debt) then a.amount else 0)
      && w'.book.debts[debt].version >= w.book.debts[debt].version
  {
    hide Guard, Act, SetShare, DefaultsFor, Reassigned;
  }

  /** Over any run a debt is its opening balance less the accepted payments, which never exceed it. */
  lemma {:induction false} BalanceOverRuns(w: World, actions: seq<WorldAction>, debt: Id)
    requires TenantInv(w.tenant) && BookInv(w.book) && AllPossible(w, actions) && debt in w.book.debts
    ensures var w' := WorldRun(w, actions);
      && debt in w'.book.debts
      && w'.book.debts[debt].balance == w.book.debts[debt].balance - Paid(w, actions, debt)
      && Paid(w, actions, debt) <= w.book.debts[debt].balance
    decreases |actions|
  {
    hide TenantInv, Possible, WorldStep, Accepted, ValidSet;
    if actions != [] {
      BalanceStep(w, actions[0], debt);
      WorldStepKeeps(w, actions[0]);
      BalanceOverRuns(WorldStep(w, actions[0]), actions[1..], debt);
    }
  }

  // --- shares follow what they come from ----------------------------------------------------

  /** The quotient, or one more where it is not exact. */
  predicate Near(x: int, n: int, d: int)
    requires d > 0
  {
    x == n / d || (x == n / d + 1 && n % d > 0)
  }

  /**
   * The rows split `total` in proportion to the basis, within one basis point each; a basis of nothing
   * but zeros splits it equally.
   */
  ghost predicate Follows(rs: seq<Responsibility>, basis: seq<Responsibility>, total: int) {
    && |rs| == |basis|
    && forall i | 0 <= i < |basis| ::
         && rs[i].member == basis[i].member
         && (Total(basis, Bp) > 0 ==> Near(rs[i].bp, total * basis[i].bp, Total(basis, Bp)))
         && (Total(basis, Bp) <= 0 ==> Near(rs[i].bp, total, |basis|))
  }

  lemma SplitFollows(total: nat, ws: seq<Share>, i: nat)
    requires DistinctIds(ws) && Splittable(total, ws) && i < |ws|
    ensures var parts := Allocation(total, ws).value;
      && Allocation(total, ws).Ok? && |parts| == |ws|
      && parts[i].id == ws[i].id && Near(parts[i].amount, total * ws[i].weight, TotalWeight(ws))
  {
    hide Hamilton;
    SplitIsExact(total, ws);
    QuotaRule(total, ws, i);
  }

  lemma AllocateBpFollows(basis: seq<Responsibility>)
    requires basis != [] && DistinctMembers(basis) && forall r <- basis :: r.bp >= 0
    ensures AllocateBp(AsWeights(basis)).Ok? && Follows(AllocateBp(AsWeights(basis)).value, basis, 10000)
  {
    hide Hamilton, Allocation, Near;
    var ws := AsWeights(basis);
    WeightsNonNegative(basis);
    WeightsTotal(basis);
    EqualTotal(ws);
    TotalNonNegative(ws, Weight);
    if forall w <- ws :: w.weight == 0 {
      TotalZero(ws, Weight);
      forall i | 0 <= i < |ws|
        ensures AllocateBp(ws).Ok? && |AllocateBp(ws).value| == |ws|
        ensures AllocateBp(ws).value[i].member == ws[i].id && Near(AllocateBp(ws).value[i].bp, 10000, |ws|)
      {
        SplitFollows(10000, EqualWeights(ws), i);
      }
    } else {
      var w :| w in ws && w.weight != 0;
      assert Weight(w) > 0;
      forall i | 0 <= i < |ws|
        ensures AllocateBp(ws).Ok? && |AllocateBp(ws).value| == |ws|
        ensures AllocateBp(ws).value[i].member == ws[i].id
        ensures Near(AllocateBp(ws).value[i].bp, 10000 * ws[i].weight, TotalWeight(ws))
      {
        SplitFollows(10000, ws, i);
      }
    }
  }

  /** Default shares follow the contributions they are derived from. */
  lemma DefaultSharesFollow(contributions: seq<Responsibility>)
    requires DistinctMembers(contributions) && forall r <- contributions :: r.bp >= 0
    ensures DefaultResponsibilities(contributions).Ok?
    ensures Follows(DefaultResponsibilities(contributions).value, contributions, 10000)
  {
    hide AllocateBp;
    if contributions != [] { AllocateBpFollows(contributions); }
  }

  /** Setting a share: exactly by an owner or admin of an open profile, in range, absorbed, and up to date. */
  lemma SetResponsibilityIff(g: Gov, b: Book, user: Id, debt: Id, member: Id, bp: int, v: nat)
    requires G.Indexed(g) && BookInv(b)
    ensures DoSetResponsibility(g, b, user, debt, member, bp, v).Ok? <==>
      && debt in b.debts && IsOpen(g, b.debts[debt].profile) && ActsAs(g, user, b.debts[debt].profile, {OWNER, ADMIN})
      && 0 <= bp <= 10000 && (bp == 10000 || exists r <- RowsOf(b, debt) :: r.member != member && r.bp > 0)
      && b.debts[debt].version == v && member in g.members
  {
    hide Guard, BookInv, DoSetResponsibility;
    SetResponsibilityMeaning(g, b, user, debt, member, bp, v);
    if debt in b.debts { GuardIff(g, b.debts[debt].profile, user, SET_DEBT_RESPONSIBILITY); }
  }

  /** When a member leaves, the rest split the debt in proportion to what they carried. */
  lemma LeaveFollows(rs: seq<Responsibility>, leaver: Id)
    requires ValidSet(rs) && Holds(rs, leaver)
    ensures Follows(Reassigned(rs, leaver), Without(rs, leaver), 10000)
  {
    hide AllocateBp, Without;
    WithoutMeaning(rs, leaver);
    if Without(rs, leaver) != [] { AllocateBpFollows(Without(rs, leaver)); }
  }

  /** When a share is set, the others split the rest in proportion to what they carried. */
  lemma SetFollows(current: seq<Responsibility>, member: Id, bp: int)
    requires ValidSet(current) && SetShare(current, member, bp).Ok?
    ensures var after := SetShare(current, member, bp).value; var others := Without(current, member);
      && |after| == |others| + 1 && after[0] == Responsibility(member, bp)
      && (Total(others, Bp) > 0 ==> Follows(after[1..], others, 10000 - bp))
      && (Total(others, Bp) == 0 ==> forall r <- after[1..] :: r.bp == 0)
  {
    hide Allocation, Without, Near;
    var others := Without(current, member);
    var after := SetShare(current, member, bp).value;
    WithoutMeaning(current, member);
    WeightsTotal(others);
    WeightsNonNegative(others);
    TotalNonNegative(others, Bp);
    if Total(others, Bp) > 0 {
      forall i | 0 <= i < |others|
        ensures |after| == |others| + 1 && after[i + 1].member == others[i].member
        ensures Near(after[i + 1].bp, (10000 - bp) * others[i].bp, Total(others, Bp))
      {
        SplitFollows(10000 - bp, AsWeights(others), i);
      }
      assert others != [];
    } else {
      ZeroSplit(AsWeights(others), 10000 - bp);
      forall r | r in after[1..] ensures r.bp == 0 {
        var i :| 0 <= i < |after[1..]| && after[1..][i] == r;
        assert after[i + 1] == r;
      }
    }
  }

  // --- creation -----------------------------------------------------------------------------

  /** The members' percentages in plan version `n`; absent means 0. */
  function Percentages(plans: Plans, profile: Id, n: nat, order: seq<Id>): (rs: seq<Responsibility>)
    ensures |rs| == |order|
  {
    seq(|order|, i requires 0 <= i < |order| =>
      Responsibility(order[i],
        if (profile, n) in plans && order[i] in plans[(profile, n)] then plans[(profile, n)][order[i]] else 0))
  }

  /**
   * A debt is created exactly when an owner or admin of an open profile gives a balance that is not
   * negative; its rows split it over the active members by their current percentages.
   */
  lemma CreateDebtMeaning(s: State, b: Book, user: Id, profile: Id, id: Id, balance: int, order: seq<Id>, n: nat)
    requires TenantInv(s) && Lists(order, ActiveMembers(s.gov, profile)) && Highest(s.con.plans, profile, n)
    ensures var r := DoCreateDebt(s, b, user, profile, id, balance, order);
      && (r.Ok? <==>
            && IsOpen(s.gov, profile) && ActsAs(s.gov, user, profile, {OWNER, ADMIN})
            && balance >= 0 && id !in b.debts)
      && (r.Ok? ==>
            && order != [] && id in r.value.rows
            && r.value == Book(b.debts[id := Debt(profile, balance, 0)], b.rows[id := r.value.rows[id]])
            && Follows(r.value.rows[id], Percentages(s.con.plans, profile, n, order), 10000))
  {
    hide TenantInv, Guard, DefaultsFor, Follows, ValidSet, Lists, ActiveMembers;
    InvParts(s);
    GuardIff(s.gov, profile, user, MANAGE_SHARED_ELEMENTS);
    DefaultsCover(s, profile, order);
    if DoCreateDebt(s, b, user, profile, id, balance, order).Ok? {
      GuardMeaning(s.gov, profile, user, MANAGE_SHARED_ELEMENTS);
      SomebodyListed(order, ActiveMembers(s.gov, profile), Guard(s.gov, profile, user, MANAGE_SHARED_ELEMENTS).value);
      DefaultsFollow(s, profile, order, n);
    }
  }

  lemma SomebodyListed(order: seq<Id>, s: set<Id>, x: Id)
    requires Lists(order, s) && x in s
    ensures order != []
  {
  }

  lemma DefaultsFollow(s: State, profile: Id, order: seq<Id>, n: nat)
    requires TenantInv(s) && Lists(order, ActiveMembers(s.gov, profile)) && Highest(s.con.plans, profile, n)
    requires order != []
    ensures DefaultsFor(s.con, profile, order).Ok?
    ensures Follows(DefaultsFor(s.con, profile, order).value, Percentages(s.con.plans, profile, n, order), 10000)
  {
    hide TenantInv, AllocateBp, Follows, LatestVersion;
    var basis := Percentages(s.con.plans, profile, n, order);
    InvParts(s);
    HighestIsLatest(s.con.plans, profile, n);
    assert AsWeights(basis) == DefaultWeights(s.con, profile, order);
    AllocateBpFollows(basis);
  }
}
