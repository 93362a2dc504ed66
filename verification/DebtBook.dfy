/**
 * The debts of a tenant and their responsibility rows, as atomic steps interleaved with the runs of
 * `Tenant`: creation, payment, setting a share, and the reaction to a member leaving.
 */
module DebtBook {
  import opened Prelude
  import opened Allocator
  import opened Governance
  import G = GovernanceProperties
  import opened Contributions
  import opened PlanProperties
  import opened Tenant
  import opened SharedDebts
  import opened SharedElementRules

  datatype Debt = Debt(profile: Id, balance: int, version: nat)

  /** `rows` holds the responsibility rows of each debt that has any. */
  datatype Book = Book(debts: map<Id, Debt>, rows: map<Id, seq<Responsibility>>)

  const EmptyBook := Book(map[], map[])

  function RowsOf(b: Book, debt: Id): seq<Responsibility> { if debt in b.rows then b.rows[debt] else [] }

  /** The profile must exist and be active before the caller's role is looked at. */
  function Guard(g: Gov, profile: Id, user: Id, c: Capability): Result<Id> {
    if profile !in g.profiles then Err(NotFound)
    else if g.profiles[profile].status != OPEN_PROFILE then Err(Archived)
    else RequireCapability(g, profile, user, c)
  }

  // --- commands -----------------------------------------------------------------------------

  ghost predicate Lists(order: seq<Id>, s: set<Id>) {
    && (forall x :: x in order <==> x in s)
    && forall i, j | 0 <= i < j < |order| :: order[i] != order[j]
  }

  /** The members' percentages in the current plan, in the order the rows come. */
  ghost function DefaultWeights(c: Con, profile: Id, order: seq<Id>): (ws: seq<Share>)
    ensures |ws| == |order|
  {
    var v := LatestVersion(c.plans, profile);
    seq(|order|, i requires 0 <= i < |order| => Share(order[i], BpAt(c.plans, profile, v, order[i])))
  }

  ghost function DefaultsFor(c: Con, profile: Id, order: seq<Id>): Result<seq<Responsibility>> {
    if order == [] then Ok([]) else AllocateBp(DefaultWeights(c, profile, order))
  }

  function AddDebt(b: Book, id: Id, d: Debt, shares: seq<Responsibility>): Book {
    b.(debts := b.debts[id := d], rows := if shares == [] then b.rows else b.rows[id := shares])
  }

  ghost function DoCreateDebt(s: State, b: Book, user: Id, profile: Id, id: Id, balance: int, order: seq<Id>): Result<Book> {
    var actor := Guard(s.gov, profile, user, MANAGE_SHARED_ELEMENTS);
    if actor.Err? then Err(actor.error)
    else if balance < 0 then Err(Validation)
    else if id in b.debts then Err(UniqueViolation)
    else
      var shares := DefaultsFor(s.con, profile, order);
      if shares.Err? then Err(shares.error) else Ok(AddDebt(b, id, Debt(profile, balance, 0), shares.value))
  }

  function DoPayDebt(g: Gov, b: Book, user: Id, debt: Id, amount: int, expectedVersion: nat): Result<Book> {
    if debt !in b.debts then Err(NotFound)
    else
      var d := b.debts[debt];
      var actor := Guard(g, d.profile, user, MANAGE_SHARED_ELEMENTS);
      if actor.Err? then Err(actor.error)
      else
        var decision := Pay(d.balance, amount);
        if decision.Err? then Err(decision.error)
        else if d.version != expectedVersion then Err(Conflict)
        else Ok(b.(debts := b.debts[debt := d.(balance := decision.value, version := d.version + 1)]))
  }

  function DoSetResponsibility(g: Gov, b: Book, user: Id, debt: Id, member: Id, bp: int, expectedVersion: nat)
    : Result<Book>
  {
    if debt !in b.debts then Err(NotFound)
    else
      var d := b.debts[debt];
      var actor := Guard(g, d.profile, user, SET_DEBT_RESPONSIBILITY);
      if actor.Err? then Err(actor.error)
      else
        var shares := SetShare(RowsOf(b, debt), member, bp);
        if shares.Err? then Err(shares.error)
        else if d.version != expectedVersion then Err(Conflict)
        else if member !in g.members then Err(ForeignKeyViolation)
        else Ok(Book(b.debts[debt := d.(version := d.version + 1)], b.rows[debt := shares.value]))
  }

  function DebtsOf(b: Book, profile: Id): set<Id> { set d | d in b.debts && b.debts[d].profile == profile }

  /** One debt's rows after a member left; a debt the member has no share in is skipped. */
  function Reassigned(rs: seq<Responsibility>, leaver: Id): seq<Responsibility> {
    var r := ReassignOnLeave(rs, leaver);
    if Holds(rs, leaver) && r.Ok? then r.value else rs
  }

  function ReassignIn(b: Book, debts: set<Id>, leaver: Id): Book {
    b.(rows := map d | d in b.rows :: if d in debts then Reassigned(b.rows[d], leaver) else b.rows[d])
  }

  function DoReassign(b: Book, profile: Id, leaver: Id): Book { ReassignIn(b, DebtsOf(b, profile), leaver) }

  /** The debts a leave changes. */
  function Affected(b: Book, debts: set<Id>, leaver: Id): set<Id> {
    set d | d in debts && Holds(RowsOf(b, d), leaver)
  }

  // --- runs ---------------------------------------------------------------------------------

  datatype World = World(tenant: State, book: Book)

  datatype WorldAction =
    | InTenant(action: Action)
    | CreateDebt(user: Id, profile: Id, id: Id, balance: int, order: seq<Id>)
    | PayDebt(user: Id, debt: Id, amount: int, expectedVersion: nat)
    | SetResponsibility(user: Id, debt: Id, member: Id, bp: int, expectedVersion: nat)
    | MemberLeftDelivered(profile: Id, leaver: Id)

  function Settle(b: Book, r: Result<Book>): Book { if r.Ok? then r.value else b }

  ghost function BookAfter(w: World, a: WorldAction): Book
    requires !a.InTenant?
  {
    match a
    case CreateDebt(user, profile, id, balance, order) =>
      Settle(w.book, DoCreateDebt(w.tenant, w.book, user, profile, id, balance, order))
    case PayDebt(user, debt, amount, v) => Settle(w.book, DoPayDebt(w.tenant.gov, w.book, user, debt, amount, v))
    case SetResponsibility(user, debt, member, bp, v) =>
      Settle(w.book, DoSetResponsibility(w.tenant.gov, w.book, user, debt, member, bp, v))
    case MemberLeftDelivered(profile, leaver) => DoReassign(w.book, profile, leaver)
  }

  ghost function WorldStep(w: World, a: WorldAction): World {
    if a.InTenant? then World(Act(w.tenant, a.action), w.book) else World(w.tenant, BookAfter(w, a))
  }

  /** A creation reads the rows of the active members, in some order. */
  ghost predicate Possible(w: World, a: WorldAction) {
    a.CreateDebt? ==> Lists(a.order, ActiveMembers(w.tenant.gov, a.profile))
  }

  ghost predicate AllPossible(w: World, actions: seq<WorldAction>)
    decreases |actions|
  {
    actions != [] ==> Possible(w, actions[0]) && AllPossible(WorldStep(w, actions[0]), actions[1..])
  }

  ghost function WorldRun(w: World, actions: seq<WorldAction>): World
    decreases |actions|
  {
    if actions == [] then w else WorldRun(WorldStep(w, actions[0]), actions[1..])
  }

  function TenantActions(actions: seq<WorldAction>): seq<Action>
    decreases |actions|
  {
    if actions == [] then []
    else (if actions[0].InTenant? then [actions[0].action] else []) + TenantActions(actions[1..])
  }

  /** Debt commands leave members, plans, periods and records to the tenant's own commands. */
  lemma {:induction false} TenantRunsAlone(w: World, actions: seq<WorldAction>)
    ensures WorldRun(w, actions).tenant == Play(w.tenant, TenantActions(actions))
    decreases |actions|
  {
    hide Act, BookAfter;
    if actions != [] {
      TenantRunsAlone(WorldStep(w, actions[0]), actions[1..]);
      if actions[0].InTenant? {
        assert TenantActions(actions)[0] == actions[0].action && TenantActions(actions)[1..] == TenantActions(actions[1..]);
      } else {
        assert TenantActions(actions) == TenantActions(actions[1..]);
      }
    }
  }

  const EmptyWorld := World(Tenant.Empty, EmptyBook)

  // --- the invariant ------------------------------------------------------------------------

  ghost predicate BookInv(b: Book) {
    && (forall d <- b.debts :: b.debts[d].balance >= 0)
    && forall d <- b.rows :: d in b.debts && ValidSet(b.rows[d])
  }

  lemma RowsValid(b: Book, debt: Id)
    requires BookInv(b)
    ensures ValidSet(RowsOf(b, debt))
  {
    EmptyValid();
  }

  /** Default shares cover the debt exactly, split over exactly the active members. */
  lemma DefaultsCover(s: State, profile: Id, order: seq<Id>)
    requires TenantInv(s) && Lists(order, ActiveMembers(s.gov, profile))
    ensures var r := DefaultsFor(s.con, profile, order);
      && r.Ok? && ValidSet(r.value) && |r.value| == |order|
      && forall i | 0 <= i < |order| :: r.value[i].member == order[i]
  {
    hide AllocateBp, ValidSet, TenantInv, BpAt, LatestVersion;
    var ws := DefaultWeights(s.con, profile, order);
    EmptyValid();
    forall w | w in ws ensures w.weight >= 0 {
      InvParts(s);
      BpRange(s.gov, s.con.plans, profile, LatestVersion(s.con.plans, profile), w.id);
    }
    if order != [] {
      AllocateBpValid(ws);
    }
  }

  lemma CreateKeeps(s: State, b: Book, user: Id, profile: Id, id: Id, balance: int, order: seq<Id>)
    requires TenantInv(s) && BookInv(b) && Lists(order, ActiveMembers(s.gov, profile))
    ensures BookInv(Settle(b, DoCreateDebt(s, b, user, profile, id, balance, order)))
  {
    hide ValidSet, TenantInv, Lists, Guard, DefaultsFor;
    DefaultsCover(s, profile, order);
  }

  lemma PayKeeps(g: Gov, b: Book, user: Id, debt: Id, amount: int, v: nat)
    requires BookInv(b)
    ensures BookInv(Settle(b, DoPayDebt(g, b, user, debt, amount, v)))
  {
    hide ValidSet, Guard;
  }

  lemma SetKeeps(g: Gov, b: Book, user: Id, debt: Id, member: Id, bp: int, v: nat)
    requires BookInv(b)
    ensures BookInv(Settle(b, DoSetResponsibility(g, b, user, debt, member, bp, v)))
  {
    hide ValidSet, Guard, SetShare;
    RowsValid(b, debt);
    SetShareMeaning(RowsOf(b, debt), member, bp);
  }

  lemma ReassignedValid(rs: seq<Responsibility>, leaver: Id)
    requires ValidSet(rs)
    ensures ValidSet(Reassigned(rs, leaver)) && !Holds(Reassigned(rs, leaver), leaver)
    ensures Reassigned(Reassigned(rs, leaver), leaver) == Reassigned(rs, leaver)
  {
    hide ValidSet, ReassignOnLeave, Holds;
    LeaveNeverDecreases(rs, leaver);
  }

  lemma ReassignKeeps(b: Book, debts: set<Id>, leaver: Id)
    requires BookInv(b)
    ensures BookInv(ReassignIn(b, debts, leaver))
  {
    hide ValidSet, Reassigned;
    forall d | d in b.rows ensures ValidSet(Reassigned(b.rows[d], leaver)) {
      ReassignedValid(b.rows[d], leaver);
    }
  }

  lemma WorldStepKeeps(w: World, a: WorldAction)
    requires TenantInv(w.tenant) && BookInv(w.book) && Possible(w, a)
    ensures TenantInv(WorldStep(w, a).tenant) && BookInv(WorldStep(w, a).book)
  {
    hide TenantInv, BookInv, Lists, DoCreateDebt, DoPayDebt, DoSetResponsibility, Settle;
    match a
    case InTenant(action) => ActKeeps(w.tenant, action);
    case CreateDebt(user, profile, id, balance, order) =>
      CreateKeeps(w.tenant, w.book, user, profile, id, balance, order);
    case PayDebt(user, debt, amount, v) => PayKeeps(w.tenant.gov, w.book, user, debt, amount, v);
    case SetResponsibility(user, debt, member, bp, v) => SetKeeps(w.tenant.gov, w.book, user, debt, member, bp, v);
    case MemberLeftDelivered(profile, leaver) =>
      ReassignKeeps(w.book, DebtsOf(w.book, profile), leaver);
  }

  lemma {:induction false} WorldRunKeeps(w: World, actions: seq<WorldAction>)
    requires TenantInv(w.tenant) && BookInv(w.book) && AllPossible(w, actions)
    ensures TenantInv(WorldRun(w, actions).tenant) && BookInv(WorldRun(w, actions).book)
    decreases |actions|
  {
    hide TenantInv, BookInv, Possible, WorldStep;
    if actions != [] {
      WorldStepKeeps(w, actions[0]);
      WorldRunKeeps(WorldStep(w, actions[0]), actions[1..]);
    }
  }

  /**
   * Whatever was created, paid, set and reassigned, in whatever order and between whatever governance
   * and contribution commands: every debt's rows name distinct members and add up to exactly 100%
   * (or there are none), and no balance is negative.
   */
  lemma ResponsibilitiesAlwaysExact(actions: seq<WorldAction>, debt: Id)
    requires AllPossible(EmptyWorld, actions)
    ensures var b := WorldRun(EmptyWorld, actions).book;
      ValidSet(RowsOf(b, debt)) && (debt in b.debts ==> b.debts[debt].balance >= 0)
  {
    hide TenantInv, ValidSet, WorldRun;
    EmptyInv();
    WorldRunKeeps(EmptyWorld, actions);
    RowsValid(WorldRun(EmptyWorld, actions).book, debt);
  }

  // --- what each command does ---------------------------------------------------------------

  lemma GuardMeaning(g: Gov, profile: Id, user: Id, c: Capability)
    requires G.Indexed(g) && Guard(g, profile, user, c).Ok?
    ensures Guard(g, profile, user, c).value in ActiveMembers(g, profile)
  {
  }

  /** A new debt is never left uncovered: its rows are exactly the active members and sum to 100%. */
  lemma NewDebtIsCovered(s: State, b: Book, user: Id, profile: Id, id: Id, balance: int, order: seq<Id>)
    requires TenantInv(s) && Lists(order, ActiveMembers(s.gov, profile))
    requires DoCreateDebt(s, b, user, profile, id, balance, order).Ok?
    ensures var rs := RowsOf(DoCreateDebt(s, b, user, profile, id, balance, order).value, id);
      && ValidSet(rs) && Total(rs, Bp) == FULL_BP
      && forall m :: Holds(rs, m) <==> m in ActiveMembers(s.gov, profile)
  {
    hide TenantInv, DefaultsFor, Guard, ActiveMembers;
    InvParts(s);
    GuardMeaning(s.gov, profile, user, MANAGE_SHARED_ELEMENTS);
    DefaultsCover(s, profile, order);
    var rs := DefaultsFor(s.con, profile, order).value;
    assert order != [];
    forall m ensures Holds(rs, m) <==> m in ActiveMembers(s.gov, profile) {
      HoldsByIndex(rs, order, m);
    }
  }

  lemma HoldsByIndex(rs: seq<Responsibility>, order: seq<Id>, m: Id)
    requires |rs| == |order| && forall i | 0 <= i < |order| :: rs[i].member == order[i]
    ensures Holds(rs, m) <==> m in order
  {
    if i :| 0 <= i < |order| && order[i] == m {
      assert rs[i] in rs;
    }
  }

  /** A share is set exactly when every check passes; only that debt's rows and version change. */
  lemma SetResponsibilityMeaning(g: Gov, b: Book, user: Id, debt: Id, member: Id, bp: int, v: nat)
    requires BookInv(b)
    ensures var r := DoSetResponsibility(g, b, user, debt, member, bp, v);
      && (r.Ok? <==>
            && debt in b.debts
            && Guard(g, b.debts[debt].profile, user, SET_DEBT_RESPONSIBILITY).Ok?
            && CanSet(RowsOf(b, debt), member, bp)
            && b.debts[debt].version == v
            && member in g.members)
      && (r.Ok? ==>
            && r.value.debts == b.debts[debt := b.debts[debt].(version := v + 1)]
            && RowsOf(r.value, debt) != [] && Total(RowsOf(r.value, debt), Bp) == FULL_BP
            && Responsibility(member, bp) in RowsOf(r.value, debt)
            && (forall m :: m != member ==> (Holds(RowsOf(r.value, debt), m) <==> Holds(RowsOf(b, debt), m)))
            && forall d :: d != debt ==> RowsOf(r.value, d) == RowsOf(b, d))
  {
    hide Guard, SetShare, BookInv;
    RowsValid(b, debt);
    SetShareMeaning(RowsOf(b, debt), member, bp);
    if SetShare(RowsOf(b, debt), member, bp).Ok? {
      SetShareHolders(RowsOf(b, debt), member, bp);
    }
  }

  lemma SetShareHolders(current: seq<Responsibility>, member: Id, bp: int)
    requires ValidSet(current) && SetShare(current, member, bp).Ok?
    ensures var after := SetShare(current, member, bp).value;
      forall m :: m != member ==> (Holds(after, m) <==> Holds(current, m))
  {
    hide SetShare;
    SetShareMeaning(current, member, bp);
    var after := SetShare(current, member, bp).value;
    var others := Without(current, member);
    WithoutMembers(current, member);
    forall m | m != member ensures Holds(after, m) <==> Holds(current, m) {
      HoldersOfTail(after, others, m);
      assert Holds(others, m) <==> Holds(current, m);
    }
  }

  lemma HoldersOfTail(after: seq<Responsibility>, others: seq<Responsibility>, m: Id)
    requires |after| == |others| + 1 && after[0].member != m
    requires forall i | 0 <= i < |others| :: after[i + 1].member == others[i].member
    ensures Holds(after, m) <==> Holds(others, m)
  {
    if r :| r in after && r.member == m {
      var i :| 0 <= i < |after| && after[i] == r;
      assert others[i - 1] in others;
    }
    if r :| r in others && r.member == m {
      var i :| 0 <= i < |others| && others[i] == r;
      assert after[i + 1] in after;
    }
  }

  /**
   * When a member leaves, they carry nothing in any debt of the profile, everybody else keeps their
   * place and carries at least what they did, and the other profiles' debts are not touched.
   */
  lemma LeaveMeaning(b: Book, profile: Id, leaver: Id, debt: Id)
    requires BookInv(b)
    ensures var b' := DoReassign(b, profile, leaver);
      && b'.debts == b.debts
      && (!(debt in b.debts && b.debts[debt].profile == profile) ==> RowsOf(b', debt) == RowsOf(b, debt))
      && (debt in b.debts && b.debts[debt].profile == profile ==>
            var before := Without(RowsOf(b, debt), leaver); var after := RowsOf(b', debt);
            && ValidSet(after) && |after| == |before| && !Holds(after, leaver)
            && forall i | 0 <= i < |before| :: after[i].member == before[i].member && after[i].bp >= before[i].bp)
  {
    hide ValidSet, ReassignOnLeave, Without;
    var rs := RowsOf(b, debt);
    RowsValid(b, debt);
    LeaveNeverDecreases(rs, leaver);
    WithoutMeaning(rs, leaver);
    EmptyValid();
  }

  /** Delivering the same leave again changes nothing and counts no debt as changed. */
  lemma LeaveTwiceIsOnce(b: Book, profile: Id, leaver: Id)
    requires BookInv(b)
    ensures var b' := DoReassign(b, profile, leaver);
      && DoReassign(b', profile, leaver) == b'
      && Affected(b', DebtsOf(b', profile), leaver) == {}
  {
    hide ValidSet, Reassigned;
    var b' := DoReassign(b, profile, leaver);
    forall d | d in b.rows && d in DebtsOf(b, profile)
      ensures Reassigned(b'.rows[d], leaver) == b'.rows[d] && !Holds(b'.rows[d], leaver)
    {
      ReassignedValid(b.rows[d], leaver);
    }
  }

  /** One more debt of the sweep. */
  lemma ReassignOneMore(b: Book, done: set<Id>, debt: Id, leaver: Id)
    requires BookInv(b) && debt !in done
    ensures var b1 := ReassignIn(b, done, leaver); var b2 := ReassignIn(b, done + {debt}, leaver);
      var rs := RowsOf(b, debt);
      && RowsOf(b1, debt) == rs
      && (Holds(rs, leaver) ==>
            && ReassignOnLeave(rs, leaver).Ok?
            && b2 == b1.(rows := b1.rows[debt := ReassignOnLeave(rs, leaver).value])
            && |Affected(b, done + {debt}, leaver)| == |Affected(b, done, leaver)| + 1)
      && (!Holds(rs, leaver) ==> b2 == b1 && |Affected(b, done + {debt}, leaver)| == |Affected(b, done, leaver)|)
  {
    hide ValidSet, ReassignOnLeave, Holds;
    var rs := RowsOf(b, debt);
    var b1 := ReassignIn(b, done, leaver);
    var b2 := ReassignIn(b, done + {debt}, leaver);
    RowsValid(b, debt);
    NobodyInNone(leaver);
    LeaveNeverDecreases(rs, leaver);
    if Holds(rs, leaver) {
      assert b2.rows == b1.rows[debt := ReassignOnLeave(rs, leaver).value];
      assert Affected(b, done + {debt}, leaver) == Affected(b, done, leaver) + {debt};
    } else {
      assert b2.rows == b1.rows;
      assert Affected(b, done + {debt}, leaver) == Affected(b, done, leaver);
    }
  }

  lemma NobodyInNone(m: Id)
    ensures !Holds([], m)
  {
  }
}
