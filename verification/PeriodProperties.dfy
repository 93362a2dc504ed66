/** Period chains, closed totals and rollover: what contribution commands keep of the period and record tables. */
module PeriodProperties {
  import opened Prelude
  import opened Calendar
  import opened Governance
  import opened GovernanceProperties
  import opened Contributions
  import opened PlanProperties

  // --- the chain ----------------------------------------------------------------------------

  /** `j` is the period that follows `i` in its profile. */
  ghost predicate Next(ps: seq<Period>, i: nat, j: nat)
    requires i < j < |ps|
  {
    ps[i].profile == ps[j].profile && forall k | i < k < j :: ps[k].profile != ps[i].profile
  }

  ghost predicate IsLast(ps: seq<Period>, i: nat)
    requires i < |ps|
  {
    forall j | i < j < |ps| :: ps[j].profile != ps[i].profile
  }

  /** Gapless, non-overlapping, and only the last period of a profile may be open. */
  ghost predicate Chain(ps: seq<Period>) {
    && (forall i | 0 <= i < |ps| :: ps[i].start < ps[i].end)
    && (forall i, j | 0 <= i < j < |ps| && ps[i].profile == ps[j].profile :: !ps[i].open && ps[i].end <= ps[j].start)
    && (forall i, j | 0 <= i < j < |ps| && Next(ps, i, j) :: ps[i].end == ps[j].start)
  }

  /** A profile that is not archived keeps its last period open. */
  ghost predicate LiveOpen(g: Gov, ps: seq<Period>) {
    forall i | 0 <= i < |ps| && IsLast(ps, i) ::
      ps[i].profile in g.profiles && g.profiles[ps[i].profile].status == OPEN_PROFILE ==> ps[i].open
  }

  ghost predicate PeriodsRefer(g: Gov, plans: Plans, ps: seq<Period>) {
    forall i | 0 <= i < |ps| :: ps[i].profile in g.profiles && ps[i].planVersion <= LatestVersion(plans, ps[i].profile)
  }

  /** Opening: either the first period of the profile, or one starting where the closed last one ended. */
  lemma AppendKeepsChain(ps: seq<Period>, p: Period)
    requires Chain(ps) && p.start < p.end
    requires forall i | 0 <= i < |ps| && ps[i].profile == p.profile && IsLast(ps, i) :: !ps[i].open && ps[i].end == p.start
    ensures Chain(ps + [p])
  {
    var qs := ps + [p];
    var n := |ps|;
    forall i, j | 0 <= i < j < |qs| && qs[i].profile == qs[j].profile ensures !qs[i].open && qs[i].end <= qs[j].start {
      if j == n {
        var l := LastOf(ps, i);
        assert !ps[l].open && ps[l].end == p.start;
      }
    }
    forall i, j | 0 <= i < j < |qs| && Next(qs, i, j) ensures qs[i].end == qs[j].start {
      if j == n {
        assert forall k | i < k < n :: qs[k] == ps[k];
        assert IsLast(ps, i);
      } else {
        assert forall k | i <= k <= j :: qs[k] == ps[k];
        assert Next(ps, i, j);
      }
    }
  }

  /** The last period of the profile of period `i`. */
  lemma LastOf(ps: seq<Period>, i: nat) returns (l: nat)
    requires i < |ps|
    ensures i <= l < |ps| && ps[l].profile == ps[i].profile && IsLast(ps, l)
    decreases |ps| - i
  {
    if IsLast(ps, i) {
      l := i;
    } else {
      var j :| i < j < |ps| && ps[j].profile == ps[i].profile;
      l := LastOf(ps, j);
    }
  }

  lemma CloseKeepsChain(ps: seq<Period>, i: nat)
    requires Chain(ps) && i < |ps|
    ensures Chain(ps[i := ps[i].(open := false)])
  {
    var qs := ps[i := ps[i].(open := false)];
    assert forall k | 0 <= k < |ps| :: qs[k].(open := ps[k].open) == ps[k];
    forall a, b | 0 <= a < b < |qs| && Next(qs, a, b) ensures qs[a].end == qs[b].start {
      assert Next(ps, a, b) by { assert forall k | a <= k <= b :: qs[k].profile == ps[k].profile; }
    }
  }

  lemma OpenIsLast(ps: seq<Period>, i: nat)
    requires Chain(ps) && i < |ps| && ps[i].open
    ensures IsLast(ps, i)
  {
  }

  // --- what the tables keep -----------------------------------------------------------------

  /** Records are positive and name a period of their profile. */
  ghost predicate RecordsOk(c: Con) {
    forall r <- c.records :: r.period < |c.periods| && r.profile == c.periods[r.period].profile && r.amount > 0
  }

  function ClosedMark(i: nat): ConEvent -> int {
    (e: ConEvent) => if e.PeriodClosed? && e.period == i then 1 else 0
  }

  /** Every total announced on closing is still the sum of that period's records. */
  ghost predicate ClosedTotals(c: Con) {
    forall e <- c.log :: e.PeriodClosed? ==>
      e.period < |c.periods| && !c.periods[e.period].open && e.profile == c.periods[e.period].profile
      && e.total == RecordedTotal(c, e.period)
  }

  /** A closed period was announced exactly once, an open one never. */
  ghost predicate ClosedOnce(c: Con) {
    forall i: nat :: Total(c.log, ClosedMark(i)) == if i < |c.periods| && !c.periods[i].open then 1 else 0
  }

  ghost predicate PeriodInv(g: Gov, c: Con) {
    && Chain(c.periods) && LiveOpen(g, c.periods) && PeriodsRefer(g, c.plans, c.periods)
    && RecordsOk(c) && ClosedTotals(c) && ClosedOnce(c)
  }

  // --- reconciliation -----------------------------------------------------------------------

  function PaidBy(records: seq<Record>, i: nat): Id -> int { (m: Id) => Total(records, AmountOf(i, m)) }

  function Single(x: Id, v: int): Id -> int { (m: Id) => if m == x then v else 0 }

  lemma {:induction false} SumSetPlus(s: set<Id>, f: Id -> int, h: Id -> int, r: Id -> int)
    requires forall x <- s :: r(x) == f(x) + h(x)
    ensures SumSet(s, r) == SumSet(s, f) + SumSet(s, h)
    decreases |s|
  {
    if s != {} {
      var x :| x in s;
      SumSetRemove(s, f, x);
      SumSetRemove(s, h, x);
      SumSetRemove(s, r, x);
      SumSetPlus(s - {x}, f, h, r);
    }
  }

  lemma SumSetSingle(s: set<Id>, x: Id, v: int)
    requires x in s
    ensures SumSet(s, Single(x, v)) == v
  {
    SumSetRemove(s, Single(x, v), x);
    SumSetSame(s - {x}, Single(x, v), Single(x, 0));
    SumSetZero(s - {x}, Single(x, 0));
  }

  lemma {:induction false} SumSetZero(s: set<Id>, f: Id -> int)
    requires forall x <- s :: f(x) == 0
    ensures SumSet(s, f) == 0
    decreases |s|
  {
    if s != {} {
      var x :| x in s;
      SumSetRemove(s, f, x);
      SumSetZero(s - {x}, f);
    }
  }

  /** Adding up per payer is adding up all records, as long as every payer is covered. */
  lemma {:induction false} GroupingKeepsTotal(records: seq<Record>, i: nat, s: set<Id>)
    requires Contributors(records, i) <= s
    ensures SumSet(s, PaidBy(records, i)) == Total(records, AmountIn(i))
    decreases |records|
  {
    if records == [] {
      SumSetZero(s, PaidBy(records, i));
    } else {
      var r, rest := records[0], records[1..];
      assert forall x <- rest :: x in records;
      GroupingKeepsTotal(rest, i, s);
      var v := AmountIn(i)(r);
      SumSetPlus(s, PaidBy(rest, i), Single(r.member, v), PaidBy(records, i));
      if v != 0 {
        assert r in records && r.member in Contributors(records, i);
        SumSetSingle(s, r.member, v);
      } else {
        SumSetZero(s, Single(r.member, v));
      }
    }
  }

  lemma {:induction false} NonContributorPaysNothing(records: seq<Record>, i: nat, m: Id)
    requires m !in Contributors(records, i)
    ensures Total(records, AmountOf(i, m)) == 0
    decreases |records|
  {
    if records != [] {
      assert records[0] in records;
      assert forall x <- records[1..] :: x in records;
      NonContributorPaysNothing(records[1..], i, m);
    }
  }

  /** The reconciled total is the sum of all records of the period, payers outside the snapshot included. */
  lemma ReconciledIsRecorded(c: Con, i: nat, members: set<Id>)
    ensures PoolActual(members, ActualByMember(c.records, i)) == RecordedTotal(c, i)
  {
    var actual := ActualByMember(c.records, i);
    var all := members + (actual.Keys - members);
    SumSetUnion(members, actual.Keys - members, Lookup(actual));
    forall m | m in all ensures Lookup(actual)(m) == PaidBy(c.records, i)(m) {
      if m !in actual { NonContributorPaysNothing(c.records, i, m); }
    }
    SumSetSame(all, Lookup(actual), PaidBy(c.records, i));
    GroupingKeepsTotal(c.records, i, all);
  }

  // --- logging ------------------------------------------------------------------------------

  /** An event that closes nothing leaves both totals properties alone. */
  lemma LogKeeps(g: Gov, c: Con, e: ConEvent)
    requires PeriodInv(g, c) && !e.PeriodClosed?
    ensures PeriodInv(g, LogEvent(c, e))
  {
    forall i: nat ensures Total(c.log + [e], ClosedMark(i)) == Total(c.log, ClosedMark(i)) {
      TotalSnoc(c.log, e, ClosedMark(i));
    }
  }

  // --- opening ------------------------------------------------------------------------------

  lemma OpenKeeps(g: Gov, c: Con, profile: Id, start: int, end: int)
    requires PeriodInvButLive(g, c, profile) && profile in g.profiles && start < end
    requires forall i | 0 <= i < |c.periods| && c.periods[i].profile == profile && IsLast(c.periods, i) ::
      !c.periods[i].open && c.periods[i].end == start
    ensures PeriodInv(g, OpenPeriod(g, c, profile, start, end))
  {
    var v := LatestVersion(c.plans, profile);
    var p := Period(profile, start, end, true, v, map m | m in ActiveMembers(g, profile) :: Income(c, m));
    var c1 := c.(periods := c.periods + [p]);
    AppendKeepsChain(c.periods, p);
    AppendKeepsLive(g, c.periods, p);
    AppendKeepsRows(g, c, p, c1);
    LogKeeps(g, c1, PeriodOpened(|c.periods|, profile, v));
  }

  /** The invariant, except that the last period of one profile may have just been closed. */
  ghost predicate PeriodInvButLive(g: Gov, c: Con, profile: Id) {
    && Chain(c.periods) && LiveOpenBut(g, c.periods, profile) && PeriodsRefer(g, c.plans, c.periods)
    && RecordsOk(c) && ClosedTotals(c) && ClosedOnce(c)
  }

  ghost predicate LiveOpenBut(g: Gov, ps: seq<Period>, profile: Id) {
    forall i | 0 <= i < |ps| && IsLast(ps, i) && ps[i].profile != profile ::
      ps[i].profile in g.profiles && g.profiles[ps[i].profile].status == OPEN_PROFILE ==> ps[i].open
  }

  lemma AppendKeepsLive(g: Gov, ps: seq<Period>, p: Period)
    requires LiveOpenBut(g, ps, p.profile) && p.open
    ensures LiveOpen(g, ps + [p])
  {
    var qs := ps + [p];
    forall i | 0 <= i < |qs| && IsLast(qs, i)
      ensures qs[i].profile in g.profiles && g.profiles[qs[i].profile].status == OPEN_PROFILE ==> qs[i].open
    {
      if i < |ps| {
        assert qs[|ps|].profile != qs[i].profile;
        assert IsLast(ps, i) by { assert forall j | i < j < |ps| :: qs[j] == ps[j]; }
      }
    }
  }

  lemma AppendKeepsRows(g: Gov, c: Con, p: Period, c1: Con)
    requires PeriodsRefer(g, c.plans, c.periods) && RecordsOk(c) && ClosedTotals(c) && ClosedOnce(c)
    requires c1 == c.(periods := c.periods + [p]) && p.open
    requires p.profile in g.profiles && p.planVersion <= LatestVersion(c.plans, p.profile)
    ensures PeriodsRefer(g, c1.plans, c1.periods) && RecordsOk(c1) && ClosedTotals(c1) && ClosedOnce(c1)
  {
    forall i: nat
      ensures Total(c1.log, ClosedMark(i)) == if i < |c1.periods| && !c1.periods[i].open then 1 else 0
    {
      assert Total(c.log, ClosedMark(i)) == if i < |c.periods| && !c.periods[i].open then 1 else 0;
    }
  }

  // --- closing and rolling over -------------------------------------------------------------

  lemma CloseKeeps(g: Gov, c: Con, i: nat, closed: Con)
    requires PeriodInv(g, c) && i < |c.periods| && c.periods[i].open
    requires closed == LogEvent(c.(periods := c.periods[i := c.periods[i].(open := false)]),
                                PeriodClosed(i, c.periods[i].profile, RecordedTotal(c, i)))
    ensures PeriodInvButLive(g, closed, c.periods[i].profile)
    ensures IsLast(closed.periods, i)
  {
    CloseKeepsChain(c.periods, i);
    CloseKeepsLive(g, c.periods, i);
    CloseKeepsTotals(c, i, closed);
    OpenIsLast(c.periods, i);
  }

  lemma CloseKeepsLive(g: Gov, ps: seq<Period>, i: nat)
    requires LiveOpen(g, ps) && i < |ps|
    ensures LiveOpenBut(g, ps[i := ps[i].(open := false)], ps[i].profile)
  {
    var qs := ps[i := ps[i].(open := false)];
    forall j | 0 <= j < |qs| && IsLast(qs, j) ensures IsLast(ps, j) {
      assert forall k | j <= k < |ps| :: qs[k].profile == ps[k].profile;
    }
  }

  lemma CloseKeepsTotals(c: Con, i: nat, closed: Con)
    requires RecordsOk(c) && ClosedTotals(c) && ClosedOnce(c) && i < |c.periods| && c.periods[i].open
    requires closed == LogEvent(c.(periods := c.periods[i := c.periods[i].(open := false)]),
                                PeriodClosed(i, c.periods[i].profile, RecordedTotal(c, i)))
    ensures RecordsOk(closed) && ClosedTotals(closed) && ClosedOnce(closed)
  {
    var e := PeriodClosed(i, c.periods[i].profile, RecordedTotal(c, i));
    forall k: nat
      ensures Total(closed.log, ClosedMark(k)) == if k < |closed.periods| && !closed.periods[k].open then 1 else 0
    {
      TotalSnoc(c.log, e, ClosedMark(k));
      assert Total(c.log, ClosedMark(k)) == if k < |c.periods| && !c.periods[k].open then 1 else 0;
    }
  }

  lemma RollOneKeeps(g: Gov, c: Con, i: nat, now: int)
    requires PeriodInv(g, c)
    ensures PeriodInv(g, RollOne(g, c, i, now))
  {
    if IsDue(c, i, now) {
      var p := c.periods[i];
      ReconciledIsRecorded(c, i, p.income.Keys);
      var closed := LogEvent(c.(periods := c.periods[i := p.(open := false)]), PeriodClosed(i, p.profile, RecordedTotal(c, i)));
      CloseKeeps(g, c, i, closed);
      assert p.profile in g.profiles;
      if g.profiles[p.profile].status == OPEN_PROFILE {
        PeriodEndBounds(p.end, g.profiles[p.profile].length);
        forall j | 0 <= j < |closed.periods| && closed.periods[j].profile == p.profile && IsLast(closed.periods, j)
          ensures j == i
        {
        }
        OpenKeeps(g, closed, p.profile, p.end, PeriodEnd(p.end, g.profiles[p.profile].length));
      }
    }
  }

  lemma {:induction false} RollAllKeeps(g: Gov, c: Con, due: seq<nat>, now: int)
    requires PeriodInv(g, c)
    ensures PeriodInv(g, RollAll(g, c, due, now))
  {
    if due != [] {
      RollAllKeeps(g, c, due[..|due| - 1], now);
      RollOneKeeps(g, RollAll(g, c, due[..|due| - 1], now), due[|due| - 1], now);
    }
  }

  // --- recording ----------------------------------------------------------------------------

  lemma EnsureOpenKeeps(g: Gov, c: Con, profile: Id, now: int)
    requires PeriodInv(g, c) && profile in g.profiles && g.profiles[profile].status == OPEN_PROFILE
    ensures var (c1, i) := EnsureOpenPeriod(g, c, profile, now);
      && PeriodInv(g, c1) && i < |c1.periods| && c1.periods[i].open && c1.periods[i].profile == profile
      && c1.records == c.records
  {
    if OpenPeriodOf(c.periods, profile).None? {
      var end := PeriodEnd(now, g.profiles[profile].length);
      PeriodEndBounds(now, g.profiles[profile].length);
      OpenKeeps(g, c, profile, now, end);
    }
  }

  lemma RecordKeeps(g: Gov, c: Con, profile: Id, i: nat, m: Id, amount: int)
    requires PeriodInv(g, c) && i < |c.periods| && c.periods[i].open && c.periods[i].profile == profile && amount > 0
    ensures PeriodInv(g, c.(records := c.records + [Record(profile, i, m, amount)]))
  {
    var r := Record(profile, i, m, amount);
    var c1 := c.(records := c.records + [r]);
    forall k: nat | k != i ensures RecordedTotal(c1, k) == RecordedTotal(c, k) {
      TotalSnoc(c.records, r, AmountIn(k));
    }
  }

  lemma DoRecordKeeps(g: Gov, c: Con, user: Id, profile: Id, member: Id, amount: int, now: int)
    requires PeriodInv(g, c) && DoRecord(g, c, user, profile, member, amount, now).Ok?
    ensures PeriodInv(g, DoRecord(g, c, user, profile, member, amount, now).value)
  {
    var (c1, i) := EnsureOpenPeriod(g, c, profile, now);
    EnsureOpenKeeps(g, c, profile, now);
    RecordKeeps(g, c1, profile, i, member, amount);
    LogKeeps(g, c1.(records := c1.records + [Record(profile, i, member, amount)]), ContributionRecorded(i, member, amount));
  }

  // --- every contribution step --------------------------------------------------------------

  /** Changing incomes or plans, with no version lost, touches neither periods nor records. */
  lemma OtherTablesKeep(g: Gov, c: Con, c': Con)
    requires PeriodInv(g, c)
    requires c'.periods == c.periods && c'.records == c.records && c'.log == c.log
    requires forall p :: LatestVersion(c'.plans, p) >= LatestVersion(c.plans, p)
    ensures PeriodInv(g, c')
  {
    forall i: nat
      ensures Total(c'.log, ClosedMark(i)) == if i < |c'.periods| && !c'.periods[i].open then 1 else 0
    {
      assert Total(c.log, ClosedMark(i)) == if i < |c.periods| && !c.periods[i].open then 1 else 0;
    }
  }

  lemma PlanChangeKeepsPeriods(g: Gov, c: Con, cmd: ConCommand)
    requires Indexed(g) && PlanInv(g, c.plans) && PeriodInv(g, c)
    requires cmd.SetAllocation? || cmd.Redistribute?
    ensures PeriodInv(g, ConStep(g, c, cmd))
  {
    var c' := ConStep(g, c, cmd);
    if c' != c {
      ConStepMoves(g, c, cmd);
      forall p ensures LatestVersion(c'.plans, p) >= LatestVersion(c.plans, p) {
        LatestNeverDrops(c.plans, cmd, c'.plans, p);
      }
      OtherTablesKeep(g, c, c.(plans := c'.plans));
      var e := c'.log[|c.log|];
      assert c' == LogEvent(c.(plans := c'.plans), e);
      LogKeeps(g, c.(plans := c'.plans), e);
    }
  }

  lemma ConStepKeepsPeriods(g: Gov, c: Con, cmd: ConCommand)
    requires Indexed(g) && PlanInv(g, c.plans) && PeriodInv(g, c)
    ensures PeriodInv(g, ConStep(g, c, cmd))
  {
    if ConExec(g, c, cmd).Ok? {
      match cmd
      case SetDeclaredIncome(user, profile, member, amount) =>
        var c1 := c.(income := c.income[member := amount]);
        OtherTablesKeep(g, c, c1);
        LogKeeps(g, c1, DeclaredIncomeSet(member, amount));
      case SetAllocation(_, _, _, _) => PlanChangeKeepsPeriods(g, c, cmd);
      case Redistribute(_, _, _) => PlanChangeKeepsPeriods(g, c, cmd);
      case RecordContribution(user, profile, member, amount, now) => DoRecordKeeps(g, c, user, profile, member, amount, now);
      case Rollover(due, now) => RollAllKeeps(g, c, due, now);
    }
  }

  lemma GovStepKeepsPeriods(g: Gov, g': Gov, c: Con)
    requires PeriodInv(g, c) && ProfilesProgress(g.profiles, g'.profiles)
    ensures PeriodInv(g', c)
  {
  }

  // --- closed totals ------------------------------------------------------------------------

  /** Records are append-only. */
  lemma {:induction false} RollAllKeepsRecords(g: Gov, c: Con, due: seq<nat>, now: int)
    ensures RollAll(g, c, due, now).records == c.records
    ensures c.log <= RollAll(g, c, due, now).log
  {
    if due != [] { RollAllKeepsRecords(g, c, due[..|due| - 1], now); }
  }

  lemma AppendOnly(g: Gov, c: Con, cmd: ConCommand)
    ensures c.records <= ConStep(g, c, cmd).records && c.log <= ConStep(g, c, cmd).log
  {
    if cmd.Rollover? { RollAllKeepsRecords(g, c, cmd.due, cmd.now); }
  }

  // --- the periods of one profile -----------------------------------------------------------

  function PeriodsOf(ps: seq<Period>, profile: Id): seq<Period> {
    if ps == [] then []
    else
      var n := |ps| - 1;
      PeriodsOf(ps[..n], profile) + if ps[n].profile == profile then [ps[n]] else []
  }

  /** Back to back, all closed but perhaps the last. */
  ghost predicate BackToBack(qs: seq<Period>) {
    forall k | 0 <= k < |qs| - 1 :: !qs[k].open && qs[k].end == qs[k + 1].start
  }

  function OpenMark(p: Period): int { if p.open then 1 else 0 }

  lemma PrefixChain(ps: seq<Period>)
    requires Chain(ps) && ps != []
    ensures Chain(ps[..|ps| - 1])
  {
    var qs := ps[..|ps| - 1];
    forall i, j | 0 <= i < j < |qs| && Next(qs, i, j) ensures qs[i].end == qs[j].start {
      assert Next(ps, i, j) by { assert forall k | i <= k <= j :: qs[k] == ps[k]; }
    }
  }

  lemma BackToBackSnoc(qs: seq<Period>, p: Period)
    requires BackToBack(qs)
    requires qs != [] ==> !qs[|qs| - 1].open && qs[|qs| - 1].end == p.start
    ensures BackToBack(qs + [p])
  {
  }

  /** `l` is where the last listed period of the profile sits in the table. */
  ghost predicate ListEndsAt(ps: seq<Period>, profile: Id, qs: seq<Period>, l: nat) {
    if qs == [] then forall i | 0 <= i < |ps| :: ps[i].profile != profile
    else l < |ps| && ps[l] == qs[|qs| - 1] && ps[l].profile == profile && IsLast(ps, l)
  }

  lemma ListEndStays(ps: seq<Period>, profile: Id, qs: seq<Period>, l: nat)
    requires ps != [] && ListEndsAt(ps[..|ps| - 1], profile, qs, l) && ps[|ps| - 1].profile != profile
    ensures ListEndsAt(ps, profile, qs, l)
  {
    assert forall j | 0 <= j < |ps| - 1 :: ps[..|ps| - 1][j] == ps[j];
  }

  lemma ListEndLinks(ps: seq<Period>, profile: Id, qs: seq<Period>, l: nat)
    requires Chain(ps) && ps != [] && ps[|ps| - 1].profile == profile
    requires qs != [] && ListEndsAt(ps[..|ps| - 1], profile, qs, l)
    ensures !qs[|qs| - 1].open && qs[|qs| - 1].end == ps[|ps| - 1].start
  {
    var n := |ps| - 1;
    assert forall j | 0 <= j < n :: ps[..n][j] == ps[j];
    assert Next(ps, l, n);
  }

  /** Read as a list, the periods of a profile are back to back. */
  lemma {:induction false} ChainOfProfile(ps: seq<Period>, profile: Id) returns (l: nat)
    requires Chain(ps)
    ensures BackToBack(PeriodsOf(ps, profile))
    ensures ListEndsAt(ps, profile, PeriodsOf(ps, profile), l)
    decreases |ps|
  {
    hide Chain, BackToBack, ListEndsAt;
    if ps == [] {
      l := 0;
      EmptyList(profile, l);
      assert PeriodsOf(ps, profile) == [];
    } else {
      var n := |ps| - 1;
      PrefixChain(ps);
      l := ChainOfProfile(ps[..n], profile);
      var before := PeriodsOf(ps[..n], profile);
      if ps[n].profile == profile {
        if before != [] { ListEndLinks(ps, profile, before, l); }
        BackToBackSnoc(before, ps[n]);
        l := n;
        LastListed(ps, profile, before);
        assert PeriodsOf(ps, profile) == before + [ps[n]];
      } else {
        assert PeriodsOf(ps, profile) == before;
        ListEndStays(ps, profile, before, l);
      }
    }
  }

  lemma EmptyList(profile: Id, l: nat)
    ensures BackToBack([]) && ListEndsAt([], profile, [], l)
  {
  }

  lemma LastListed(ps: seq<Period>, profile: Id, before: seq<Period>)
    requires ps != [] && ps[|ps| - 1].profile == profile
    ensures ListEndsAt(ps, profile, before + [ps[|ps| - 1]], |ps| - 1)
  {
  }

  lemma {:induction false} OneOpen(qs: seq<Period>)
    requires BackToBack(qs) && qs != [] && qs[|qs| - 1].open
    ensures Total(qs, OpenMark) == 1
    decreases |qs|
  {
    if |qs| > 1 {
      assert BackToBack(qs[1..]) by { assert forall k | 0 <= k < |qs| - 1 :: qs[1..][k] == qs[k + 1]; }
      OneOpen(qs[1..]);
    }
  }

  /** An active profile with any period has exactly one open period, the last of an unbroken chain. */
  lemma ProfileChain(g: Gov, c: Con, profile: Id)
    requires PeriodInv(g, c)
    ensures BackToBack(PeriodsOf(c.periods, profile))
    ensures profile in g.profiles && g.profiles[profile].status == OPEN_PROFILE && PeriodsOf(c.periods, profile) != [] ==>
      Total(PeriodsOf(c.periods, profile), OpenMark) == 1
  {
    var l := ChainOfProfile(c.periods, profile);
    var qs := PeriodsOf(c.periods, profile);
    if profile in g.profiles && g.profiles[profile].status == OPEN_PROFILE && qs != [] {
      OneOpen(qs);
    }
  }

  // --- catching up --------------------------------------------------------------------------

  /** How late a due period is, in milliseconds; 0 when it is not due. */
  function Lateness(now: int): Period -> int {
    (p: Period) => if p.open && now >= p.end then now - p.end + 1 else 0
  }

  function TotalLateness(c: Con, now: int): int { Total(c.periods, Lateness(now)) }

  ghost predicate NoneDue(c: Con, now: int) { forall i: nat :: !IsDue(c, i, now) }

  lemma {:induction false} TotalUpdate(ps: seq<Period>, i: nat, p: Period, f: Period -> int)
    requires i < |ps|
    ensures Total(ps[i := p], f) == Total(ps, f) - f(ps[i]) + f(p)
  {
    if i == 0 {
      assert ps[0 := p][1..] == ps[1..];
    } else {
      assert ps[i := p][1..] == ps[1..][i - 1 := p];
      TotalUpdate(ps[1..], i - 1, p, f);
    }
  }

  /** Rolling a due period over replaces it by one that is at least a week less late. */
  lemma RollOneCatchesUp(g: Gov, c: Con, i: nat, now: int)
    ensures TotalLateness(RollOne(g, c, i, now), now) <= TotalLateness(c, now)
    ensures IsDue(c, i, now) ==> TotalLateness(RollOne(g, c, i, now), now) < TotalLateness(c, now)
  {
    if IsDue(c, i, now) {
      var p := c.periods[i];
      var closed := c.periods[i := p.(open := false)];
      var f := Lateness(now);
      TotalUpdate(c.periods, i, p.(open := false), f);
      var c' := RollOne(g, c, i, now);
      if |c'.periods| > |c.periods| {
        var q := c'.periods[|c.periods|];
        assert c'.periods == closed + [q];
        TotalSnoc(closed, q, f);
        PeriodEndBounds(p.end, g.profiles[p.profile].length);
      } else {
        assert c'.periods == closed;
      }
    }
  }

  lemma {:induction false} RollAllCatchesUp(g: Gov, c: Con, due: seq<nat>, now: int)
    requires due != [] && IsDue(c, due[0], now)
    ensures TotalLateness(RollAll(g, c, due, now), now) < TotalLateness(c, now)
    decreases |due|
  {
    var rest, last := due[..|due| - 1], due[|due| - 1];
    if rest == [] {
      assert RollAll(g, c, rest, now) == c;
    } else {
      RollAllCatchesUp(g, c, rest, now);
    }
    RollOneCatchesUp(g, RollAll(g, c, rest, now), last, now);
  }

  /** What the due query may return: due periods without repetition, all of them unless the page is full. */
  ghost predicate IsPage(c: Con, now: int, due: seq<nat>) {
    && |due| <= 500
    && (forall i | 0 <= i < |due| :: IsDue(c, due[i], now))
    && (forall i, j | 0 <= i < j < |due| :: due[i] != due[j])
    && (|due| < 500 ==> forall i: nat :: IsDue(c, i, now) ==> i in due)
  }

  /** `n` sweeps at a fixed time, `page` standing for whatever the query returns each time. */
  ghost function Sweeps(g: Gov, c: Con, now: int, page: Con -> seq<nat>, n: nat): Con
    decreases n
  {
    if n == 0 then c else Sweeps(g, RollAll(g, c, page(c), now), now, page, n - 1)
  }

  lemma PageLowersLateness(g: Gov, c: Con, due: seq<nat>, now: int)
    requires IsPage(c, now, due) && !NoneDue(c, now)
    ensures 0 <= TotalLateness(RollAll(g, c, due, now), now) < TotalLateness(c, now)
  {
    assert due != [];
    RollAllCatchesUp(g, c, due, now);
    TotalNonNegative(RollAll(g, c, due, now).periods, Lateness(now));
  }

  /** Repeating the sweep at a fixed time ends with nothing due, whichever pages the query returns. */
  lemma {:induction false} CatchUp(g: Gov, c: Con, now: int, page: Con -> seq<nat>) returns (n: nat)
    requires forall d: Con :: IsPage(d, now, page(d))
    ensures NoneDue(Sweeps(g, c, now, page, n), now)
    ensures n <= TotalLateness(c, now)
    decreases TotalLateness(c, now)
  {
    hide IsPage, NoneDue, TotalLateness, RollAll;
    if NoneDue(c, now) {
      n := 0;
      LatenessNonNegative(c, now);
    } else {
      var due := page(c);
      assert IsPage(c, now, due);
      PageLowersLateness(g, c, due, now);
      var k := CatchUp(g, RollAll(g, c, due, now), now, page);
      n := k + 1;
    }
  }

  lemma LatenessNonNegative(c: Con, now: int)
    ensures 0 <= TotalLateness(c, now)
  {
    TotalNonNegative(c.periods, Lateness(now));
  }
}
