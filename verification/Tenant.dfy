/** Runs of one tenant: governance and contribution commands interleaved, each one transaction. */
module Tenant {
  import opened Prelude
  import opened Governance
  import G = GovernanceProperties
  import opened Contributions
  import opened PlanProperties
  import opened PeriodProperties
  import Calendar
  import ContributionMeaning

  datatype State = State(gov: Gov, con: Con)

  datatype Action = Govern(cmd: Command) | Contribute(con: ConCommand)

  const Empty := State(EmptyGov, EmptyCon)

  ghost function Act(s: State, a: Action): State {
    match a
    case Govern(cmd) => s.(gov := Step(s.gov, cmd))
    case Contribute(cmd) => s.(con := ConStep(s.gov, s.con, cmd))
  }

  ghost function Play(s: State, actions: seq<Action>): State
    decreases |actions|
  {
    if actions == [] then s else Play(Act(s, actions[0]), actions[1..])
  }

  ghost predicate TenantInv(s: State) {
    G.Inv(s.gov) && PlanInv(s.gov, s.con.plans) && PeriodInv(s.gov, s.con)
  }

  lemma ActKeeps(s: State, a: Action)
    requires TenantInv(s)
    ensures TenantInv(Act(s, a))
  {
    hide G.Inv, G.Progresses, PlanInv, PeriodInv, Step, ConStep;
    match a
    case Govern(cmd) =>
      GovernKeeps(s, cmd);
    case Contribute(cmd) =>
      assert G.Indexed(s.gov) by { InvIndexed(s.gov); }
      ConStepKeepsPlans(s.gov, s.con, cmd);
      ConStepKeepsPeriods(s.gov, s.con, cmd);
  }

  lemma InvIndexed(g: Gov)
    requires G.Inv(g)
    ensures G.Indexed(g)
  {
  }

  lemma GovernKeeps(s: State, cmd: Command)
    requires TenantInv(s)
    ensures TenantInv(State(Step(s.gov, cmd), s.con))
  {
    hide G.Inv, PlanInv, PeriodInv, Step;
    G.StepKeeps(s.gov, cmd);
    G.StepProgresses(s.gov, cmd);
    GovStepKeepsPlans(s.gov, Step(s.gov, cmd), s.con.plans);
    GovStepKeepsPeriods(s.gov, Step(s.gov, cmd), s.con);
  }

  lemma {:induction false} PlayKeeps(s: State, actions: seq<Action>)
    requires TenantInv(s)
    ensures TenantInv(Play(s, actions))
    decreases |actions|
  {
    hide TenantInv, Act;
    if actions != [] {
      ActKeeps(s, actions[0]);
      PlayKeeps(Act(s, actions[0]), actions[1..]);
    }
  }

  /** Nothing exists at first, so everything holds. */
  lemma EmptyInv()
    ensures TenantInv(Empty)
  {
    forall u: Id ensures CommittedBy(EmptyGov, EmptyCon.plans, u) <= FULL_BP {
      SumSetZero(UserActive(EmptyGov, u), CurrentBp(EmptyGov, EmptyCon.plans));
    }
  }

  lemma Reachable(actions: seq<Action>)
    ensures TenantInv(Play(Empty, actions))
  {
    EmptyInv();
    PlayKeeps(Empty, actions);
  }

  function Governing(actions: seq<Action>): seq<Command>
    decreases |actions|
  {
    if actions == [] then []
    else (if actions[0].Govern? then [actions[0].cmd] else []) + Governing(actions[1..])
  }

  /** The governance tables follow the governance commands alone, so everything proved of their runs holds here. */
  lemma {:induction false} GovernanceRunsAlone(s: State, actions: seq<Action>)
    ensures Play(s, actions).gov == Run(s.gov, Governing(actions))
    decreases |actions|
  {
    hide Step, ConStep;
    if actions != [] {
      GovernanceRunsAlone(Act(s, actions[0]), actions[1..]);
      if actions[0].Govern? {
        assert Governing(actions)[0] == actions[0].cmd && Governing(actions)[1..] == Governing(actions[1..]);
      } else {
        assert Governing(actions) == Governing(actions[1..]);
      }
    }
  }

  // --- the cap ------------------------------------------------------------------------------

  /**
   * In every reachable state nobody has committed more than 100% over their active memberships. So
   * the headroom computed from any list of commitments with the right sum, such as the one
   * `CommittedByUser` collects, is exactly what is left and is never clamped.
   */
  lemma CapAlwaysHolds(actions: seq<Action>, user: Id, cs: seq<Commitment>)
    requires CommittedTotalBp(cs) == CommittedBy(Play(Empty, actions).gov, Play(Empty, actions).con.plans, user)
    ensures var s := Play(Empty, actions);
      && CommittedBy(s.gov, s.con.plans, user) <= FULL_BP
      && RemainingBp(cs) == FULL_BP - CommittedBy(s.gov, s.con.plans, user)
  {
    Reachable(actions);
    assert Cap(Play(Empty, actions).gov, Play(Empty, actions).con.plans);
  }

  // --- periods ------------------------------------------------------------------------------

  /** In every reachable state a profile's periods are back to back, and an active one has one open. */
  lemma ChainAlwaysHolds(actions: seq<Action>, profile: Id)
    ensures var s := Play(Empty, actions); var qs := PeriodsOf(s.con.periods, profile);
      && BackToBack(qs)
      && (profile in s.gov.profiles && s.gov.profiles[profile].status == OPEN_PROFILE && qs != [] ==>
            Total(qs, OpenMark) == 1)
  {
    hide TenantInv, Play;
    Reachable(actions);
    InvParts(Play(Empty, actions));
    ProfileChain(Play(Empty, actions).gov, Play(Empty, actions).con, profile);
  }

  lemma InvParts(s: State)
    requires TenantInv(s)
    ensures G.Indexed(s.gov) && PlanInv(s.gov, s.con.plans) && PeriodInv(s.gov, s.con)
  {
  }

  /** Every period lasts as long as its profile's periods do. */
  ghost predicate OnSchedule(g: Gov, ps: seq<Period>) {
    forall p <- ps :: ScheduledIn(g, p)
  }

  ghost predicate ScheduledIn(g: Gov, p: Period) {
    p.profile in g.profiles && Calendar.EndsOnSchedule(p.start, p.end, g.profiles[p.profile].length)
  }

  lemma {:induction false} RollAllOnSchedule(g: Gov, c: Con, due: seq<nat>, now: int)
    requires OnSchedule(g, c.periods)
    ensures OnSchedule(g, RollAll(g, c, due, now).periods)
    decreases |due|
  {
    hide RollOne;
    if due != [] {
      var rest, i := due[..|due| - 1], due[|due| - 1];
      RollAllOnSchedule(g, c, rest, now);
      RollOneOnSchedule(g, RollAll(g, c, rest, now), i, now);
    }
  }

  lemma RollOneOnSchedule(g: Gov, c: Con, i: nat, now: int)
    requires OnSchedule(g, c.periods)
    ensures OnSchedule(g, RollOne(g, c, i, now).periods)
  {
    hide OpenPeriod, ScheduledIn, PoolActual, ActualByMember;
    if IsDue(c, i, now) {
      var p := c.periods[i];
      ContributionMeaning.RollMeaning(g, c, i, now);
      SameSchedule(g, p, p.(open := false));
      if IsOpenProfile(g, p.profile) {
        FreshOnSchedule(g, c, RollOne(g, c, i, now).periods[|c.periods|]);
      }
    }
  }

  ghost predicate IsOpenProfile(g: Gov, profile: Id) {
    profile in g.profiles && g.profiles[profile].status == OPEN_PROFILE
  }

  lemma SameSchedule(g: Gov, p: Period, q: Period)
    requires p.profile == q.profile && p.start == q.start && p.end == q.end
    ensures ScheduledIn(g, p) <==> ScheduledIn(g, q)
  {
  }

  lemma FreshOnSchedule(g: Gov, c: Con, p: Period)
    requires ContributionMeaning.Fresh(g, c, p)
    ensures ScheduledIn(g, p)
  {
  }

  lemma RecordOnSchedule(g: Gov, c: Con, cmd: ConCommand)
    requires OnSchedule(g, c.periods) && cmd.RecordContribution?
    ensures OnSchedule(g, ConStep(g, c, cmd).periods)
  {
    hide ScheduledIn, ConExec;
    ContributionMeaning.RecordMeaning(g, c, cmd.user, cmd.profile, cmd.member, cmd.amount, cmd.now);
    var r := ConExec(g, c, cmd);
    if r.Ok? {
      var i: nat :| ContributionMeaning.Recorded(g, c, cmd.profile, cmd.member, cmd.amount, cmd.now, i, r.value);
      if !ContributionMeaning.OpenAt(c.periods, cmd.profile, i) { FreshOnSchedule(g, c, r.value.periods[i]); }
    }
  }

  lemma ScheduleKept(s: State, a: Action)
    requires TenantInv(s) && OnSchedule(s.gov, s.con.periods)
    ensures OnSchedule(Act(s, a).gov, Act(s, a).con.periods)
  {
    hide G.Inv, PlanInv, PeriodInv, Calendar.EndsOnSchedule, OpenPeriod, RollAll, DoRecord;
    match a
    case Govern(cmd) =>
      hide Step;
      G.StepProgresses(s.gov, cmd);
    case Contribute(cmd) =>
      if cmd.RecordContribution? { RecordOnSchedule(s.gov, s.con, cmd); }
      if cmd.Rollover? { RollAllOnSchedule(s.gov, s.con, cmd.due, cmd.now); }
  }

  lemma {:induction false} PlaySchedule(s: State, actions: seq<Action>)
    requires TenantInv(s) && OnSchedule(s.gov, s.con.periods)
    ensures OnSchedule(Play(s, actions).gov, Play(s, actions).con.periods)
    decreases |actions|
  {
    hide TenantInv, OnSchedule, Act;
    if actions != [] {
      ActKeeps(s, actions[0]);
      ScheduleKept(s, actions[0]);
      PlaySchedule(Act(s, actions[0]), actions[1..]);
    }
  }

  /** In every reachable state each period runs exactly a week, or one, three or twelve months, as its profile says. */
  lemma ScheduleAlwaysHolds(actions: seq<Action>, i: nat)
    requires i < |Play(Empty, actions).con.periods|
    ensures var s := Play(Empty, actions); var p := s.con.periods[i];
      p.profile in s.gov.profiles && Calendar.EndsOnSchedule(p.start, p.end, s.gov.profiles[p.profile].length)
  {
    hide Play, TenantInv;
    EmptyInv();
    PlaySchedule(Empty, actions);
    assert ScheduledIn(Play(Empty, actions).gov, Play(Empty, actions).con.periods[i]);
  }

  // --- closed totals ------------------------------------------------------------------------

  lemma ActAppends(s: State, a: Action)
    ensures s.con.records <= Act(s, a).con.records && s.con.log <= Act(s, a).con.log
  {
    if a.Contribute? { AppendOnly(s.gov, s.con, a.con); }
  }

  lemma {:induction false} PlayAppends(s: State, actions: seq<Action>)
    ensures s.con.records <= Play(s, actions).con.records && s.con.log <= Play(s, actions).con.log
    decreases |actions|
  {
    hide Act;
    if actions != [] {
      ActAppends(s, actions[0]);
      PlayAppends(Act(s, actions[0]), actions[1..]);
    }
  }

  /** A total announced on closing equals the period's records then and in every later state. */
  lemma ClosedTotalStaysTrue(before: seq<Action>, after: seq<Action>, e: ConEvent)
    requires e in Play(Empty, before).con.log && e.PeriodClosed?
    ensures var s := Play(Play(Empty, before), after);
      && e in s.con.log
      && e.period < |s.con.periods| && !s.con.periods[e.period].open
      && e.total == RecordedTotal(s.con, e.period) == RecordedTotal(Play(Empty, before).con, e.period)
  {
    hide Play, TenantInv;
    var s := Play(Empty, before);
    var s' := Play(s, after);
    Reachable(before);
    PlayKeeps(s, after);
    PlayAppends(s, after);
    InvParts(s);
    InvParts(s');
    TotalHeld(s.gov, s.con, e);
    TotalHeld(s'.gov, s'.con, e);
  }

  lemma TotalHeld(g: Gov, c: Con, e: ConEvent)
    requires PeriodInv(g, c) && e in c.log && e.PeriodClosed?
    ensures e.period < |c.periods| && !c.periods[e.period].open && e.total == RecordedTotal(c, e.period)
  {
  }

  // --- history ------------------------------------------------------------------------------

  /** One action leaves a period's history alone but for the in-place allocation exception. */
  lemma HistoryOfAction(s: State, a: Action, i: nat)
    requires TenantInv(s) && i < |s.con.periods|
    ensures a.Govern? ==> Act(s, a).con == s.con
    ensures a.Contribute? ==> HistoryKept(s.con, Act(s, a).con, a.con, i)
  {
    if a.Contribute? {
      assert s.con.periods[i].planVersion <= LatestVersion(s.con.plans, s.con.periods[i].profile);
      HistoryStep(s.gov, s.con, a.con, i);
    }
  }

  /** Once its plan version is superseded, a period expects the same of everyone for the rest of the run. */
  lemma {:induction false} FrozenForTheRun(s: State, actions: seq<Action>, i: nat)
    requires TenantInv(s) && i < |s.con.periods| && Superseded(s.con, i)
    ensures var s' := Play(s, actions);
      && i < |s'.con.periods| && Superseded(s'.con, i) && Expectations(s'.con, i) == Expectations(s.con, i)
    decreases |actions|
  {
    hide TenantInv, Superseded, Expectations;
    if actions != [] {
      FrozenByAction(s, actions[0], i);
      ActKeeps(s, actions[0]);
      FrozenForTheRun(Act(s, actions[0]), actions[1..], i);
    }
  }

  lemma FrozenByAction(s: State, a: Action, i: nat)
    requires TenantInv(s) && i < |s.con.periods| && Superseded(s.con, i)
    ensures var s' := Act(s, a);
      && i < |s'.con.periods| && Superseded(s'.con, i) && Expectations(s'.con, i) == Expectations(s.con, i)
  {
    hide Superseded, Expectations;
    InvParts(s);
    if a.Contribute? { SupersededIsFrozen(s.gov, s.con, a.con, i); }
  }

  /** The period of a profile never holds a plan version above the latest. */
  lemma SnapshotNotAhead(g: Gov, c: Con, i: nat)
    requires PeriodInv(g, c) && i < |c.periods|
    ensures c.periods[i].planVersion <= LatestVersion(c.plans, c.periods[i].profile)
  {
  }

  lemma RedistributionSupersedes(s: State, user: Id, profile: Id, allocs: seq<NewShare>, i: nat)
    requires TenantInv(s) && i < |s.con.periods| && s.con.periods[i].profile == profile
    requires DoRedistribute(s.gov, s.con, user, profile, allocs).Ok?
    ensures var s' := Act(s, Contribute(Redistribute(user, profile, allocs)));
      && i < |s'.con.periods| && Superseded(s'.con, i) && Expectations(s'.con, i) == Expectations(s.con, i)
  {
    hide TenantInv, PlanInv, PeriodInv, Superseded, Expectations;
    InvParts(s);
    SnapshotNotAhead(s.gov, s.con, i);
    RedistributionFreezes(s.gov, s.con, user, profile, allocs, i);
  }

  /** A redistribution freezes every period its profile has opened, until the end of the run. */
  lemma RedistributionFreezesHistory(s: State, user: Id, profile: Id, allocs: seq<NewShare>, actions: seq<Action>, i: nat)
    requires TenantInv(s) && i < |s.con.periods| && s.con.periods[i].profile == profile
    requires DoRedistribute(s.gov, s.con, user, profile, allocs).Ok?
    ensures var s' := Play(Act(s, Contribute(Redistribute(user, profile, allocs))), actions);
      i < |s'.con.periods| && Expectations(s'.con, i) == Expectations(s.con, i)
  {
    hide TenantInv, Superseded, Expectations, DoRedistribute, Act, Play;
    var a := Contribute(Redistribute(user, profile, allocs));
    RedistributionSupersedes(s, user, profile, allocs, i);
    ActKeeps(s, a);
    FrozenForTheRun(Act(s, a), actions, i);
  }
}
