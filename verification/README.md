# Shared household finances: a verified model of the back end

The back end keeps shared profiles of a household: who belongs to them and in which role, which
percentage of their income each member commits, what they have paid in each period, and the shared
debts, goals and budgets. Money is integer cents, percentages are integer basis points, and each
command runs in one database transaction of one tenant. This project models the parts whose
correctness spans many functions or whole runs, and proves what they promise.

Run `dafny verify dfyconfig.toml` in this directory to check everything.

## How it is organised

| files | content |
|---|---|
| `Prelude.dfy` | identifiers, results, sums over sequences and sets |
| `Allocator.dfy`, `AllocatorProperties.dfy`, `AllocatorUniqueness.dfy` | the largest-remainder allocator, its laws, and why they determine it |
| `Governance.dfy`, `GovernanceProperties.dfy`, `Authority.dfy`, `GovernanceMeaning.dfy`, `ProfilesService.dfy` | membership commands as steps with events; what every run keeps; who may change what; when each command succeeds; the service over mutable tables |
| `Calendar.dfy` | UTC date arithmetic (sections 15.9.1.3 to 15.9.1.13 of ECMA-262 edition 5.1) and period ends |
| `Contributions.dfy`, `PlanProperties.dfy`, `PeriodProperties.dfy`, `ContributionMeaning.dfy`, `ContributionsService.dfy` | plans, allocations, periods, records and rollover; their invariants; when each command succeeds and what a new period holds; the services over mutable tables |
| `Tenant.dfy` | runs in which governance and contribution commands interleave, and the theorems about all reachable states |
| `SharedElementRules.dfy`, `SharedDebts.dfy`, `DebtBook.dfy`, `DebtMeaning.dfy`, `DebtsService.dfy` | responsibility sets of debts, their runs, payments and proportions, the service and the member-left consumer |
| `OptimisticLock.dfy` | interleaved transactions under optimistic locking |
| `Delivery.dfy`, `Redelivery.dfy`, `Outbox.dfy` | outbox, queue and worker as a concurrent protocol with crashes; sequential retries; relay and registry |
| `RateLimiter.dfy` | the fixed-window rate limiter |
| `PubSub.dfy` | the publish/subscribe async iterator |

Each part has the same shape. A value describes the tables, a function describes one step on them
with its error cases in the order the source checks them, and a class with mutable fields holds the
service as the source has it: lookups, loops, row-by-row writes. Every method of the class is proved
to perform exactly the specified step or to leave the state alone. The `...Meaning` modules say when
a step succeeds and what rows it leaves in terms of the rows alone, with the numbers and roles written
out; the theorems about invariants and runs are proved about the same steps. Steps that may fail return the error and leave the state as it was,
as a rolled-back transaction does.

## Choices a reader should know

- A transaction is one atomic step, except in `OptimisticLock`, where reads and conditional writes of
  different transactions interleave, and in `Delivery`, where every single effect is its own step.
- Queries without an order return rows in any order. Where the order can matter it is a parameter
  (`CreateSharedDebt`), otherwise a loop picks rows arbitrarily. The pages of 500 rows that the sweeps
  fetch may be any page.
- Generated ids, the current time and which handlers throw are parameters.
- A membership's declared income is a column of its own map in `Contributions`; it is never read by
  the governance commands. Each part keeps its own portion of the outbox log.
- The worker writes its marker before it runs a handler
  (apps/api/src/modules/events/registry/domain-events.worker.ts:48), although the comment above the
  class says that the marker is only written on success. The model follows the code: delivery is at
  most once when processes crash, and exactly once over attempts that do not.
- `setAllocation` writes the current plan in place, so the expectations of a period whose snapshot
  version is still the latest can change. History preservation is stated with exactly that exception.
- Not every command checks whether a profile is archived; the model has the checks the code has.
- The allocator keys its bump set by id. Its exactness fails for repeated ids; `ExactIff` gives the
  exact condition and `RepeatedIdOverpays` an input. The database keys make ids distinct for all its
  callers.
- An expected version above the version read breaks the ledger; `AheadOfItsReadLosesAnUpdate` is such
  a run, and `NoLostUpdate` holds for all others.

## Model

| member | source | states |
|---|---|---|
| Allocator.AllocateByLargestRemainder | apps/api/src/common/money/percentage.ts:71-129 | The imperative allocator (weight loop, floors, ranking, residual loop, bump set keyed by id) returns, for every input, what the order-free definition `Allocation` says: a range error for a negative total or weight, zeros for zero weight, otherwise one extra unit for every id with fewer than `residual` entries ranked ahead of it |
| Allocator.SumWeights | apps/api/src/common/money/percentage.ts:82-88 | The weight loop refuses exactly the inputs with a negative weight and otherwise returns the sum |
| Allocator.FloorShares | apps/api/src/common/money/percentage.ts:95-106 | Quotient and remainder of every share, and the sum of the quotients |
| Allocator.BumpLeaders | apps/api/src/common/money/percentage.ts:118-122 | The residual loop collects exactly the ids in the first `residual` places of the ranking |
| Allocator.BumpIsTopOfRanking | apps/api/src/common/money/percentage.ts:108-122 | In any list sorted by the comparator, the ids in the first r places are the ids with fewer than r entries ranked ahead of them, so the result does not depend on the sort algorithm |
| Allocator.ResidualBelowPositive | apps/api/src/common/money/percentage.ts:63-67 | The leftover is 0 or strictly below the number of shares with a fractional claim |
| AllocatorProperties.ExactIff | apps/api/src/common/money/percentage.ts:95-128 | On any splittable input the parts add up to the total if and only if the ranking is not cut between two entries with the same id |
| AllocatorProperties.Exact | apps/api/src/common/money/percentage.ts:59-70 | With distinct ids the parts add up to the total exactly |
| AllocatorProperties.RepeatedIdOverpays | apps/api/src/common/money/percentage.ts:118-128 | A concrete input with a repeated id whose parts add up to more than the total |
| AllocatorProperties.QuotaRule | apps/api/src/common/money/percentage.ts:95-128 | Every part is its floor or floor + 1, only a share with a positive remainder is rounded up, a zero weight gets nothing |
| AllocatorProperties.BumpThreshold | apps/api/src/common/money/percentage.ts:108-122 | A share that gets an extra unit never has a smaller remainder than one that does not |
| AllocatorProperties.LargerWeightNeverLess | apps/api/src/common/money/percentage.ts:95-128 | In one allocation a strictly larger weight never receives less |
| AllocatorProperties.Optimal | apps/api/src/common/money/percentage.ts:95-128 | Among all integer vectors with the same total, the result has the least sum of squared deviations from the proportional split |
| AllocatorProperties.OrderIndependent | apps/api/src/common/money/percentage.ts:108-128 | For any reordering of the shares every id receives the same amount, and the output follows the input order |
| AllocatorUniqueness.TiesGoToTheSmallerId | apps/api/src/common/money/percentage.ts:108-116 | Of two shares with equal remainders the one with the smaller id is rounded up first |
| AllocatorUniqueness.ExtraUnitsFollowTheOrder | apps/api/src/common/money/percentage.ts:108-122 | A share rounded up has a larger remainder than one that is not, or an equal one and a smaller id |
| AllocatorUniqueness.OnlyFairSplit | apps/api/src/common/money/percentage.ts:95-128 | With distinct ids a list of amounts is the result if and only if it adds up to the total, stays at floor or floor + 1, and rounds up in the order of remainders and ids: the allocator is determined by its promises |
| AllocatorUniqueness.AllocationCases | apps/api/src/common/money/percentage.ts:75-93 | Refused exactly for a negative total or a negative weight; empty for no shares; zeros for zero weight |
| Prelude.LexLessMeaning | apps/api/src/common/money/percentage.ts:113-114 | The tie-break order is the dictionary order, read off at the first difference |
| GovernanceProperties.SingleOwner | apps/api/src/modules/profiles/application/profiles.service.ts:234-263 | After any run of commands and expiry sweeps a profile has exactly one OWNER membership; it is ACTIVE and is the one stored as owner |
| GovernanceProperties.StepKeeps | apps/api/src/modules/profiles/domain/entities/membership.ts:55-154 | Every command keeps: unique (profile, user) rows, one ACTIVE owner per profile, and an owner never carrying the nominee flag (needed when several nominations are outstanding) |
| GovernanceProperties.EventsRebuildState | apps/api/src/modules/profiles/application/profiles.service.ts:72-331 | After any run, folding the emitted events in order rebuilds every membership's role, status and nominee flag and every profile's owner and status |
| GovernanceProperties.StepReplays | apps/api/src/modules/profiles/application/profiles.service.ts:304-333 | Every command or sweep appends events whose fold moves the view exactly as the command moved the tables |
| GovernanceProperties.EndsAreAbsorbing | apps/api/src/modules/profiles/domain/entities/membership.ts:37-95 | LEFT, DECLINED, EXPIRED and ARCHIVED stay as they are in every later state, nobody becomes INVITED again, and the log only grows |
| GovernanceProperties.NeverReinvited | apps/api/src/modules/profiles/application/profiles.service.ts:105-118 | Inviting a user who has any row in the profile, ended or not, always fails (in code, or on the unique key) |
| GovernanceProperties.ExpireAllEffect | apps/api/src/modules/profiles/application/jobs/invitation-expiry.job.ts:63-96 | A sweep over distinct due rows expires exactly those rows, leaves the others, and logs one event for each |
| GovernanceMeaning.RoleTable | apps/api/src/modules/permissions/capability-matrix.ts:31-54 | Read by role: an owner may do everything, an admin everything but nominate, transfer and archive, a contributor only view and act on their own income, allocation and payments, a viewer only view |
| GovernanceMeaning.CapabilityIff | apps/api/src/modules/profiles/application/profiles.service.ts:335-350 | The check passes if and only if the caller is an ACTIVE member of the profile in a role that has the capability |
| GovernanceMeaning.InvitationLifetime | apps/api/src/modules/profiles/domain/entities/membership.ts:17-49 | Whatever happens in between, a pending invitation can be accepted if and only if 14 days (1209600000 ms) have not passed since it was issued, and the sweep expires it if and only if they have |
| GovernanceMeaning.CreateProfileMeaning | apps/api/src/modules/profiles/application/profiles.service.ts:49-87 | Founding succeeds exactly for new ids and leaves exactly the profile, its owner row and the event |
| GovernanceMeaning.InviteMeaning | apps/api/src/modules/profiles/application/profiles.service.ts:91-134 | Inviting succeeds exactly for an owner or admin of an open profile and a user with no row in it, never as OWNER, and leaves exactly the INVITED row |
| GovernanceMeaning.OwnTransitionsMeaning | apps/api/src/modules/profiles/application/profiles.service.ts:136-152 | Accept, decline and leave succeed exactly on the caller's own row in the right state (in time; not as owner), change only its status and append one event |
| GovernanceMeaning.ChangeRoleMeaning | apps/api/src/modules/profiles/application/profiles.service.ts:156-200 | A role change succeeds exactly for an owner or admin of an open profile on an ACTIVE non-owner at the expected version, never to OWNER |
| GovernanceMeaning.NominateMeaning | apps/api/src/modules/profiles/application/profiles.service.ts:202-232 | A nomination succeeds exactly for the owner and an ACTIVE non-owner of the profile |
| GovernanceMeaning.TakeOwnershipMeaning | apps/api/src/modules/profiles/application/profiles.service.ts:234-263 | Taking over succeeds exactly for an ACTIVE nominee, who becomes owner while the former owner becomes admin |
| GovernanceMeaning.ArchiveMeaning | apps/api/src/modules/profiles/domain/entities/shared-profile.ts:46-67 | Archiving succeeds exactly for the owner of an open profile who is its only ACTIVE member |
| GovernanceMeaning.SweepMeaning | apps/api/src/modules/profiles/application/jobs/invitation-expiry.job.ts:63-96 | A sweep over any list expires exactly the listed invitations that are pending and late |
| Authority.EveryChangeIsAuthorised | apps/api/src/modules/profiles/application/profiles.service.ts:136-333 | Whatever the command, a membership row changes only as its actor may change it: the invitee accepts in time or declines, the sweep expires a late invitation, a non-owner leaves, an active owner or admin of an open profile changes a non-owner's role under the version seen, the owner nominates, and only a nominee takes over while the owner steps down to admin |
| Authority.EveryNewcomerIsAdmitted | apps/api/src/modules/profiles/application/profiles.service.ts:49-134 | A membership row appears only for the founder of a new profile, or as an INVITED non-owner invited to an open profile by its active owner or an admin and without any earlier row |
| Authority.EveryProfileChangeIsAuthorised | apps/api/src/modules/profiles/application/profiles.service.ts:234-296 | A profile row changes only when its owner, its only active member, archives it, or when a nominee takes it over |
| Authority.CapabilityMeaning | apps/api/src/modules/profiles/application/profiles.service.ts:335-350 | A passed capability check means an ACTIVE membership of the caller in that profile with a role the matrix lists |
| ProfilesService.GovTables.CreateSharedProfile | apps/api/src/modules/profiles/application/profiles.service.ts:49-87 | Commits exactly the creation step, or rolls back with the key violation |
| ProfilesService.GovTables.InviteMember | apps/api/src/modules/profiles/application/profiles.service.ts:91-134 | Commits exactly the invitation step, with the errors in the order the source checks them |
| ProfilesService.GovTables.TransitionOwnMembership | apps/api/src/modules/profiles/application/profiles.service.ts:304-333 | Accept, decline and leave commit exactly the decided transition of the caller's own row and its event |
| ProfilesService.GovTables.ChangeRoleVersioned | apps/api/src/modules/profiles/infrastructure/membership.repository.ts:70-80 | The role changes and the version goes up only where the version still matches |
| ProfilesService.GovTables.ChangeMemberRole | apps/api/src/modules/profiles/application/profiles.service.ts:156-200 | Commits exactly the role change under the version check, or leaves the tables alone |
| ProfilesService.GovTables.NominateNewOwner | apps/api/src/modules/profiles/application/profiles.service.ts:202-232 | Commits exactly the nomination step |
| ProfilesService.GovTables.FindCurrentOwner | apps/api/src/modules/profiles/application/profiles.service.ts:239-241 | Finds the one ACTIVE owner whichever order the rows come in |
| ProfilesService.GovTables.AcceptOwnershipTransfer | apps/api/src/modules/profiles/application/profiles.service.ts:234-263 | Two row updates and the owner column commit exactly the transfer step |
| ProfilesService.GovTables.CloseProfile | apps/api/src/modules/profiles/domain/entities/shared-profile.ts:46-68 | Commits exactly the archive step: owner only, one active member, not archived already |
| ProfilesService.GovTables.FindDueInvitations | apps/api/src/modules/profiles/application/jobs/invitation-expiry.job.ts:66-69 | Distinct due rows, and all of them unless the page is full |
| ProfilesService.GovTables.ExpireInvitationsForTenant | apps/api/src/modules/profiles/application/jobs/invitation-expiry.job.ts:63-96 | The sweep loop performs exactly the sweep step, counts what it expired, and a count below the page size leaves nothing due |
| ProfilesService.CommittedKeeps | apps/api/src/modules/profiles/application/profiles.service.ts:49-296 | Whatever the steps keep, a committing method keeps: the invariant, the replay of the log, and progress |
| PlanProperties.VersionsExactly | apps/api/src/modules/contributions/infrastructure/contribution.repository.ts:22-42 | The plan versions of a profile are exactly 1 to the latest |
| PlanProperties.InvitedHasNoAllocation | apps/api/src/modules/contributions/application/contributions.service.ts:77-90 | An INVITED membership appears in no plan version |
| PlanProperties.SetAllocationKeeps | apps/api/src/modules/contributions/application/contributions.service.ts:77-106 | An accepted allocation keeps everyone's total over ACTIVE memberships within 10000 bp and the plan versions contiguous |
| PlanProperties.RedistributeKeeps | apps/api/src/modules/contributions/application/contributions.service.ts:154-204 | So does a redistribution, for all targets at once |
| PlanProperties.GovStepKeepsPlans | apps/api/src/modules/profiles/domain/entities/membership.ts:55-95 | So does every governance step: a row that turns ACTIVE was INVITED or is new, and neither is in a plan |
| PlanProperties.NewAllocationsRows | apps/api/src/modules/contributions/application/contributions.service.ts:184-187 | With each membership at most once, the new plan version holds exactly the rows asked for |
| PlanProperties.HistoryStep | apps/api/src/modules/contributions/application/contributions.service.ts:77-204 | One step leaves a period's frozen fields alone and its expectations equal, except that setting an allocation while the snapshot version is still the latest changes that one member's expectation |
| PlanProperties.SupersededIsFrozen | apps/api/src/modules/contributions/application/period.service.ts:79-90 | Once a newer plan version exists, no step changes what the period expects |
| PlanProperties.RedistributionFreezes | apps/api/src/modules/contributions/application/contributions.service.ts:182-187 | A redistribution supersedes every period its profile has opened and changes none of their expectations |
| ContributionMeaning.SetIncomeMeaning | apps/api/src/modules/contributions/application/contributions.service.ts:48-75 | Declaring income succeeds exactly on one's own ACTIVE seat, not as viewer, for a non-negative amount, and stores that amount |
| ContributionMeaning.CommitmentMeaning | apps/api/src/modules/contributions/infrastructure/contribution.repository.ts:62-79 | What counts against the cap is the percentage of the highest plan version, for each ACTIVE membership of the user |
| ContributionMeaning.SetAllocationMeaning | apps/api/src/modules/contributions/application/contributions.service.ts:77-106 | An allocation succeeds exactly on one's own seat, in range and within what the other profiles leave (else the error names the headroom); it sets that one row of the highest version, or starts version 1 |
| ContributionMeaning.RedistributeMeaning | apps/api/src/modules/contributions/application/contributions.service.ts:154-204 | A redistribution succeeds exactly for an owner or admin of an open profile and distinct ACTIVE members whose shares fit; the next version holds exactly the requested rows |
| ContributionMeaning.RecordMeaning | apps/api/src/modules/contributions/application/contributions.service.ts:108-147 | A payment succeeds exactly on one's own seat in an open profile for a positive amount; one record with that member and amount is appended to the open period, or to a fresh first period that starts now |
| ContributionMeaning.OpenedIsFresh | apps/api/src/modules/contributions/application/period.service.ts:47-77 | A period that opens freezes the highest plan version and the declared income of exactly the ACTIVE members, and ends on the profile's schedule |
| ContributionMeaning.FreshExpectation | apps/api/src/modules/contributions/application/period.service.ts:54-69 | Hence it expects of each active member the current income times the current percentage |
| ContributionMeaning.RollMeaning | apps/api/src/modules/contributions/application/period.service.ts:98-118 | Rolling over closes the period with the sum of its records and opens, unless the profile is archived, a fresh successor that starts where it ended |
| ContributionMeaning.RolloverMeaning | apps/api/src/modules/contributions/application/period.service.ts:93-121 | A sweep over distinct due periods closes exactly those; each of an open profile gets a fresh successor and every new period succeeds one of them |
| PeriodProperties.ProfileChain | apps/api/src/modules/contributions/application/period.service.ts:34-77 | Under the period invariant a profile's periods are back to back, and an active profile with any period has exactly one open one |
| PeriodProperties.RollOneKeeps | apps/api/src/modules/contributions/application/period.service.ts:98-118 | Closing a due period and opening its successor keeps the chain, the announced totals and their uniqueness |
| PeriodProperties.ReconciledIsRecorded | apps/api/src/modules/contributions/domain/contribution-period.ts:88-107 | The reconciled total, payers outside the snapshot included, is the sum of all the period's records |
| PeriodProperties.AppendOnly | apps/api/src/modules/contributions/infrastructure/contribution.repository.ts:115-132 | No step removes or changes a record or a logged event |
| PeriodProperties.ConStepKeepsPeriods | apps/api/src/modules/contributions/application/period.service.ts:34-121 | Every contribution command keeps the period invariant: chain, one open period, positive records in their own profile's periods, true closing totals announced once |
| PeriodProperties.RollOneCatchesUp | apps/api/src/modules/contributions/application/period.service.ts:93-121 | Rolling a due period over strictly lowers the total lateness at a fixed time |
| PeriodProperties.CatchUp | apps/api/src/modules/contributions/application/jobs/period-rollover.job.ts:29-42 | Repeating the sweep at a fixed time ends with nothing due, whichever pages of at most 500 the query returns |
| Calendar.PeriodEndDate | apps/api/src/modules/contributions/domain/contribution-period.ts:24-40 | The setters applied to a copy of the start produce exactly `PeriodEnd` |
| Calendar.PeriodEndBounds | apps/api/src/modules/contributions/domain/contribution-period.ts:24-40 | The end is later by 7, 28-31, 89-92 or 365-366 whole days and keeps the time of day |
| Calendar.PeriodEndDates | apps/api/src/modules/contributions/domain/contribution-period.ts:24-40 | A time is the end of a period if and only if it is seven days later, or the same time of day one, three or twelve months later on the same date, the days a short month lacks spilling into the month after |
| Calendar.KnownDates | apps/api/src/modules/contributions/domain/contribution-period.ts:24-40 | Days count from 1 January 1970; 29 February 2000 and 28 February 1900 stand where they should |
| Calendar.MonthOffsets | apps/api/src/modules/contributions/domain/contribution-period.ts:24-40 | The first day of each month within a common and a leap year |
| Calendar.GettersInvertMakeDay | apps/api/src/modules/contributions/domain/contribution-period.ts:24-40 | The calendar getters invert MakeDay: a day number has exactly one reading as a date |
| Tenant.ActKeeps | apps/api/src/modules/contributions/application/contributions.service.ts:48-204 | Every governance or contribution transaction keeps the joint invariant of members, plans, periods and records |
| Tenant.GovernanceRunsAlone | apps/api/src/modules/profiles/application/profiles.service.ts:49-333 | The governance tables of a mixed run are those of its governance commands alone |
| Tenant.CapAlwaysHolds | apps/api/src/modules/contributions/domain/cross-profile-cap.ts:17-53 | In every reachable state nobody has committed more than 10000 bp over their ACTIVE memberships, so the headroom reported is exactly 10000 minus the sum |
| Tenant.ChainAlwaysHolds | apps/api/src/modules/contributions/application/period.service.ts:34-121 | In every reachable state the periods of a profile are a gapless chain with exactly one open period while it is active |
| Tenant.ScheduleAlwaysHolds | apps/api/src/modules/contributions/domain/contribution-period.ts:24-50 | In every reachable state each period lasts exactly a week, or one, three or twelve months, as its profile says |
| Tenant.ClosedTotalStaysTrue | apps/api/src/modules/contributions/application/period.service.ts:98-111 | A total announced on closing equals the sum of that period's records then and in every later state |
| Tenant.HistoryOfAction | apps/api/src/modules/contributions/application/contributions.service.ts:77-204 | Any transaction leaves a period's history alone but for the in-place allocation |
| Tenant.FrozenForTheRun | apps/api/src/modules/contributions/application/period.service.ts:79-90 | A superseded period expects the same of everyone for the rest of the run |
| Tenant.RedistributionFreezesHistory | apps/api/src/modules/contributions/application/contributions.service.ts:149-204 | After a redistribution every period opened before it expects the same for the rest of the run |
| ContributionsService.ContributionTables.CommittedByUser | apps/api/src/modules/contributions/infrastructure/contribution.repository.ts:62-79 | The loop over ACTIVE memberships lists commitments that add up to the user's total, overall and with any profile left out |
| ContributionsService.ContributionTables.SetAllocation | apps/api/src/modules/contributions/application/contributions.service.ts:77-106 | Commits exactly the in-place allocation step, or the first error |
| ContributionsService.ContributionTables.SetDeclaredIncome | apps/api/src/modules/contributions/application/contributions.service.ts:48-75 | Commits exactly the income step, or the first error |
| ContributionsService.ValidateRedistribution | apps/api/src/modules/contributions/domain/redistribution.ts:27-47 | The loop with a `seen` set accepts exactly the non-empty lists of distinct members with percentages in range |
| ContributionsService.ContributionTables.Redistribute | apps/api/src/modules/contributions/application/contributions.service.ts:154-204 | Commits exactly the new plan version, or the first error |
| ContributionsService.ContributionTables.CurrentPlan | apps/api/src/modules/contributions/infrastructure/contribution.repository.ts:22-25 | The highest version of the profile, 0 for none |
| ContributionsService.ContributionTables.EnsureOpen | apps/api/src/modules/contributions/application/period.service.ts:34-45 | Returns the open period, or opens the first one anchored at now |
| ContributionsService.ContributionTables.OpenNewPeriod | apps/api/src/modules/contributions/application/period.service.ts:47-77 | Freezes the current plan version and the income of exactly the ACTIVE members |
| ContributionsService.ContributionTables.RecordPayment | apps/api/src/modules/contributions/application/contributions.service.ts:108-147 | Commits exactly one appended record in the open period, or the first error |
| ContributionsService.ContributionTables.SnapshotMembers | apps/api/src/modules/contributions/application/period.service.ts:79-90 | One snapshot for each member whose income was frozen, with the percentage of the frozen plan version |
| ContributionsService.Reconcile | apps/api/src/modules/contributions/domain/contribution-period.ts:88-107 | Succeeds exactly when every percentage is in range; expected, actual (outsiders included), variance and shortfall are the sums they should be |
| ContributionsService.ContributionTables.ReconcilePeriod | apps/api/src/modules/contributions/application/period.service.ts:100-102 | Reconciling a period yields the sum of its records and of its expectations |
| ContributionsService.ContributionTables.DuePeriods | apps/api/src/modules/contributions/infrastructure/contribution.repository.ts:111-113 | Distinct due periods, and all of them unless the page of 500 is full |
| ContributionsService.ContributionTables.RollPeriod | apps/api/src/modules/contributions/application/period.service.ts:98-118 | Closes one due period with its reconciled total and opens the successor unless the profile is archived |
| ContributionsService.ContributionTables.RolloverForTenant | apps/api/src/modules/contributions/application/period.service.ts:93-121 | The sweep loop performs exactly the sweep step and counts the successors opened |
| ContributionsService.CommittedKeeps | apps/api/src/modules/contributions/application/contributions.service.ts:48-204 | A committing method is one action of a run, so it keeps the joint invariant |
| SharedDebts.AllocateBpValid | apps/api/src/modules/shared-elements/domain/debt-responsibility.ts:25-35 | Splitting 100% over distinct members always succeeds, keeps their order, and gives a valid set |
| SharedDebts.DefaultsValid | apps/api/src/modules/shared-elements/domain/debt-responsibility.ts:37-41 | Default shares are a valid set with one row for each contribution |
| SharedDebts.LeaveNeverDecreases | apps/api/src/modules/shared-elements/domain/debt-responsibility.ts:50-61 | After a leave the rest are a valid set again, in the same order, the leaver is gone and nobody carries less |
| SharedDebts.ReassignAbsentIsNoOp | apps/api/src/modules/shared-elements/domain/debt-responsibility.ts:54-61 | Reassigning a member who holds nothing returns the same set |
| SharedDebts.SetShareMeaning | apps/api/src/modules/shared-elements/application/shared-elements.service.ts:133-150 | Setting a share succeeds if and only if it is in range and the rest is zero or someone else carries something; the new set gives the member what was asked, keeps the others, and is exactly 100% |
| DebtBook.ResponsibilitiesAlwaysExact | apps/api/src/modules/shared-elements/application/shared-elements.service.ts:77-170 | In every state reachable by any interleaving of debt commands, leaves and tenant commands, each debt's rows are distinct, non-negative, and empty or exactly 10000 bp, and no balance is negative |
| DebtBook.TenantRunsAlone | apps/api/src/modules/shared-elements/application/shared-elements.service.ts:77-170 | Debt commands leave members, plans, periods and records to the tenant's own commands |
| DebtBook.NewDebtIsCovered | apps/api/src/modules/shared-elements/application/shared-elements.service.ts:77-92 | A new debt's rows name exactly the active members and add up to exactly 10000 bp |
| DebtBook.SetResponsibilityMeaning | apps/api/src/modules/shared-elements/application/shared-elements.service.ts:127-170 | Setting a responsibility succeeds exactly when the debt exists, the caller may, the share can be absorbed, the version matches and the member exists; then only that debt's rows and version change |
| DebtBook.LeaveMeaning | apps/api/src/modules/shared-elements/application/debt-reassignment.consumer.ts:38-55 | A leave clears the member from every debt of the profile, lowers nobody, and touches no other profile and no balance or version |
| DebtBook.LeaveTwiceIsOnce | apps/api/src/modules/shared-elements/application/debt-reassignment.consumer.ts:1-8 | Delivering the same leave again changes nothing and counts nothing as changed |
| DebtMeaning.PayMeaning | apps/api/src/modules/shared-elements/application/shared-elements.service.ts:94-121 | A payment succeeds exactly for an owner or admin of an open profile, a positive amount up to the balance and the current version; that balance falls by exactly the amount and nothing else changes |
| DebtMeaning.BalanceOverRuns | apps/api/src/modules/shared-elements/application/shared-elements.service.ts:94-121 | Over any run a debt is its opening balance less the accepted payments, which never exceed it |
| DebtMeaning.CreateDebtMeaning | apps/api/src/modules/shared-elements/application/shared-elements.service.ts:77-92 | Creation succeeds exactly for an owner or admin of an open profile and a non-negative balance; the rows split it over the active members by their percentages in the highest plan version |
| DebtMeaning.SetResponsibilityIff | apps/api/src/modules/shared-elements/application/shared-elements.service.ts:127-157 | Setting a share succeeds exactly for an owner or admin of an open profile when the share is in range, can be absorbed, the version is current and the member exists |
| DebtMeaning.AllocateBpFollows | apps/api/src/modules/shared-elements/domain/debt-responsibility.ts:25-33 | Every share is the proportional one rounded down, or one basis point more; an all-zero basis is split equally |
| DebtMeaning.DefaultSharesFollow | apps/api/src/modules/shared-elements/domain/debt-responsibility.ts:35-39 | Default shares are proportional to the contributions within one basis point |
| DebtMeaning.LeaveFollows | apps/api/src/modules/shared-elements/domain/debt-responsibility.ts:50-61 | After a leave the rest split 100% in proportion to what they carried |
| DebtMeaning.SetFollows | apps/api/src/modules/shared-elements/application/shared-elements.service.ts:137-147 | After a share is set the others split the rest in proportion to what they carried |
| DebtsService.RescaleAround | apps/api/src/modules/shared-elements/application/shared-elements.service.ts:133-150 | The rescaling with both validations returns exactly what `SetShare` specifies |
| DebtsService.CommittedIsAnAction | apps/api/src/modules/shared-elements/application/shared-elements.service.ts:77-170 | A committed debt command is one action of a run, so the theorems about runs are about the methods |
| DebtsService.DebtTables.CreateSharedDebt | apps/api/src/modules/shared-elements/application/shared-elements.service.ts:77-92 | Commits exactly the creation step with the default rows |
| DebtsService.DebtTables.PaySharedDebt | apps/api/src/modules/shared-elements/application/shared-elements.service.ts:94-121 | Commits exactly the payment under the version check, or the first error |
| DebtsService.DebtTables.SetDebtResponsibility | apps/api/src/modules/shared-elements/application/shared-elements.service.ts:127-170 | Commits exactly the new rows and version, or the first error |
| DebtsService.DebtTables.ReplaceResponsibilities | apps/api/src/modules/shared-elements/infrastructure/shared-elements.repository.ts:57-70 | Deleting and re-creating row by row leaves exactly the given rows |
| DebtsService.DebtTables.ReassignForLeftMember | apps/api/src/modules/shared-elements/application/debt-reassignment.consumer.ts:38-55 | The loop reassigns exactly the debts of the profile that hold the leaver, and returns how many |
| OptimisticLock.NoLostUpdate | apps/api/src/common/persistence/versioned-repository.ts:29-74 | For every interleaving of reads and conditional writes whose expected version is not above the version read, each debt, goal and budget equals its opening value plus all committed changes, its version counts the commits, no debt is negative and a goal is achieved exactly at its target |
| OptimisticLock.CommitKeepsLedgerIff | apps/api/src/modules/shared-elements/application/shared-elements.service.ts:94-109 | A committing write keeps the ledger if and only if the value decided from is the value overwritten (a version touch always does) |
| OptimisticLock.WriteMeaning | apps/api/src/modules/shared-elements/application/shared-elements.service.ts:46-65 | A write commits if and only if the change fits the row read (positive, no overpayment) and the version is the expected one; then that row moves by exactly the change, and otherwise nothing does |
| OptimisticLock.VersionsNeverDrop | apps/api/src/common/persistence/versioned-repository.ts:58-74 | A version a record has had is never above a later one, so echoing a version one was shown is within the condition |
| OptimisticLock.AheadOfItsReadLosesAnUpdate | apps/api/src/modules/shared-elements/application/shared-elements.service.ts:94-109 | A concrete run in which a caller sends a version above the one its transaction reads, and a payment is lost |
| OptimisticLock.VersionedTable.UpdateMany | apps/api/src/common/persistence/versioned-repository.ts:58-74 | The guarded write changes the named columns and the version exactly where id and version match, and counts the rows |
| OptimisticLock.VersionedTable.UpdateWithOptimisticLock | apps/api/src/common/persistence/versioned-repository.ts:29-44 | Zero affected rows is a conflict with nothing written; otherwise the fresh row is returned |
| OptimisticLock.VersionedTable.FinishTransaction | apps/api/src/modules/shared-elements/application/shared-elements.service.ts:46-73 | Deciding from the row read and writing under the lock commits exactly when the protocol step does |
| Delivery.AtMostOnce | apps/api/src/modules/events/registry/domain-events.worker.ts:43-60 | For every interleaving of relays, deliveries, handler failures and crashes, each handler takes effect at most once per event, only for enqueued events it is registered for; every row marked dispatched was enqueued and only outbox rows are |
| Delivery.ClaimsKept | apps/api/src/modules/events/registry/domain-events.worker.ts:46-58 | A key is claimed while an attempt holds it, and at most one attempt holds it |
| Delivery.EffectsKept | apps/api/src/modules/events/registry/domain-events.worker.ts:48-54 | A handler that has taken effect stays claimed, is held by nobody, and has done so once |
| Delivery.QueueKept | apps/api/src/modules/events/dispatcher/outbox.dispatcher.ts:55-84 | Marked rows were enqueued, queued and delivered events were enqueued, and only rows are enqueued |
| Delivery.NoEventLost | apps/api/src/modules/events/dispatcher/outbox.dispatcher.ts:55-84 | In every run the job of an enqueued or marked event is still queued, or a delivery of it went past the last handler registered for its type |
| Delivery.RelayAlone | apps/api/src/modules/events/dispatcher/outbox.dispatcher.ts:49-84 | A relay left alone with a batch of unmarked rows enqueues and marks exactly those |
| Delivery.OrphanNeverTakesEffect | apps/api/src/modules/events/registry/domain-events.worker.ts:46-51 | A claim that nobody holds and whose handler has no effect blocks that effect in every continuation |
| Delivery.CrashLosesTheEffect | apps/api/src/modules/events/registry/domain-events.worker.ts:46-54 | A crash after the claim and before the handler has finished loses that effect for good |
| Redelivery.RetryGivesExactlyOnce | apps/api/src/modules/events/registry/domain-events.worker.ts:43-60 | Over any sequence of crash-free attempts the handlers that have succeeded are a prefix of the registered list, once each and in order, and all of it once an attempt returns normally |
| Redelivery.NormalReturnIff | apps/api/src/modules/events/registry/domain-events.worker.ts:43-60 | An attempt returns normally if and only if no handler still unclaimed throws |
| Redelivery.CompleteIffNoOrphan | apps/api/src/modules/events/registry/domain-events.worker.ts:46-51 | After a normal return every handler has taken effect if and only if no claim was left, at the start, by one that had not |
| Redelivery.SoloAttempt | apps/api/src/modules/events/registry/domain-events.worker.ts:43-60 | A worker running alone in the concurrent protocol does exactly one sequential attempt, and the job goes away only on a normal return |
| Redelivery.DomainEventsWorker.Process | apps/api/src/modules/events/registry/domain-events.worker.ts:43-60 | The claim, handle and un-claim loop does exactly one sequential attempt |
| Outbox.MarkingPrefix | apps/api/src/modules/events/dispatcher/outbox.dispatcher.ts:49-53 | Marking the first k undispatched rows leaves exactly the later ones, in order |
| Outbox.OutboxRelay.Write | apps/api/src/modules/events/outbox/outbox.writer.ts:16-31 | Appends one row with a fresh id and keeps ids distinct |
| Outbox.OutboxRelay.FindPending | apps/api/src/modules/events/dispatcher/outbox.dispatcher.ts:49-53 | Exactly the smaller of the batch size and the number of unmarked rows, taken as the first unmarked rows in append order |
| Outbox.OutboxRelay.DispatchPending | apps/api/src/modules/events/dispatcher/outbox.dispatcher.ts:45-96 | Enqueues and marks exactly the oldest unmarked rows up to the batch size and returns their number, which leaves none unmarked when they fit; an error leaves the rows before it done, its own row enqueued or not but unmarked, and the rest untouched; the flag is always cleared, and a second run meanwhile is a no-op |
| Outbox.EventRegistry.Register | apps/api/src/modules/events/registry/event-registry.ts:24-30 | Pushing onto the lists keeps every list equal to the handlers that want the type, in registration order |
| Outbox.WantedDistinct | apps/api/src/modules/events/registry/event-registry.ts:24-34 | With unique names and no type listed twice, the list an event walks has no repetition and names exactly the handlers of its type |
| Outbox.WantedInOrder | apps/api/src/modules/events/registry/event-registry.ts:24-34 | Of two handlers that want a type the one registered first is run first |
| RateLimiter.WindowBound | apps/api/src/common/throttling/rate-limiter.service.ts:43-54 | In every window of a bucket and principal the number allowed is exactly the smaller of the requests made and the limit |
| RateLimiter.SpanBound | apps/api/src/common/throttling/rate-limiter.service.ts:43-54 | Any span as long as a window allows at most twice the limit |
| RateLimiter.SpanBoundIsTight | apps/api/src/common/throttling/rate-limiter.service.ts:43-54 | A concrete run that reaches twice the limit |
| RateLimiter.NeverExpiresInsideWindow | apps/api/src/common/throttling/rate-limiter.service.ts:61-68 | A counter is still live whenever its window is hit again |
| RateLimiter.RetryLandsInNextWindow | apps/api/src/common/throttling/rate-limiter.service.ts:44-47 | The back-off is between 1 second and a window, lands in the next window, and a second less does not |
| RateLimiter.DecisionMeaning | apps/api/src/common/throttling/rate-limiter.service.ts:43-54 | Every decision of a run: allowed exactly while fewer than the limit came before in its window, with what is left of the limit, and a back-off into the next window and no further |
| RateLimiter.RateLimiterService.IncrementWithExpiry | apps/api/src/common/throttling/rate-limiter.service.ts:61-68 | Increment, and expiry on the first hit only, count exactly one request |
| RateLimiter.RateLimiterService.Check | apps/api/src/common/throttling/rate-limiter.service.ts:42-54 | One call is exactly one step of a run, to the counters and in the decision |
| PubSub.Fifo | apps/api/src/common/pubsub/pubsub.service.ts:17-68 | For every run, delivered followed by queued payloads are exactly those published on the trigger between subscribing and detaching, in order, and a waiting consumer implies an empty queue |
| PubSub.CallGetsItsPayload | apps/api/src/common/pubsub/pubsub.service.ts:49-56 | When every consumer awaits each call, call number k gets payload number k |
| PubSub.NextMeaning | apps/api/src/common/pubsub/pubsub.service.ts:50-56 | In every reachable state a call gets the first due payload not yet handed out; with none left, the end on a closed subscription, and otherwise it waits |
| PubSub.PublishMeaning | apps/api/src/common/pubsub/pubsub.service.ts:17-35 | A publication is logged and goes to exactly the open subscriptions on its trigger: to a waiting consumer at once, otherwise to the end of the queue |
| PubSub.AttachMeaning | apps/api/src/common/pubsub/pubsub.service.ts:22-60 | Subscribing adds an open, empty subscription that counts from here; returning closes one from here |
| PubSub.EndComesLast | apps/api/src/common/pubsub/pubsub.service.ts:50-60 | The end is only announced once everything due up to the detach has been handed out |
| PubSub.StrandedIff | apps/api/src/common/pubsub/pubsub.service.ts:44-60 | A waiting call is left unanswered if and only if its consumer calls `next` again or returns before it is answered |
| PubSub.StrandedForever | apps/api/src/common/pubsub/pubsub.service.ts:27-60 | A call left unanswered is not answered in any continuation |
| PubSub.PubSubService.Publish | apps/api/src/common/pubsub/pubsub.service.ts:17-20 | The loop over the listeners hands the payload to each attached subscription once |
| PubSub.PubSubService.AsyncIterator | apps/api/src/common/pubsub/pubsub.service.ts:22-42 | Attaches a new, empty subscription to the trigger |
| PubSub.PubSubService.NextCall | apps/api/src/common/pubsub/pubsub.service.ts:50-56 | A queued payload first, then the end when closed, otherwise the call waits |
| PubSub.PubSubService.ReturnCall | apps/api/src/common/pubsub/pubsub.service.ts:44-60 | Detaches the subscription, once |

## Left out

- SharedProfileCreated does not carry the founder's user, so the view that events rebuild has no user column.
- Dates of joining, leaving and archiving, names, currencies, audit entries and event payload details.
- Percentages and weights that are not integers: the model's are integers, so those checks cannot fail.
- JavaScript date range: the limit of 8.64e15 ms and invalid dates are not modelled; years are unbounded.
- Strings compare by UTF-16 code unit in the source and by character in the model; identifiers are ASCII.
- Concurrency between whole transactions (two first periods opened at once, write skew on the cap) is outside the atomic-step model.
- The jobs' outer loops over tenants and the row-level security of the database.
- Marker expiry after seven days, backoff delays and the limit of five attempts: any number of retries is allowed and markers last.
- A handler that throws is taken to have had no effect.
- Outbox.OutboxRelay.DispatchPending: rows are taken in the order they were appended, which stands for the order by `occurredAt`.
- The rate limiter's timeout and fail-open branch, and key strings: a bucket and a principal are a pair, not one joined string.
- Goals and budgets are modelled from their rows on (funding and spending); their creation, and investments, add only easy members.
- DebtBook.NewDebtIsCovered: the order of the rows in a new debt is the order in which the member query returns them.
- Debt responsibility rows carry a version column of their own that nothing reads.
- Throwing into an async iterator detaches it as returning does; the rejected promise itself is not modelled.
- Resolvers, read services, mappers, coaching text, telemetry, cache, scheduling and the mobile client.
