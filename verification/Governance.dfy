/**
 * Membership governance: the domain transitions, the commands as atomic steps over the tables of one
 * tenant, and the events they append.
 */
module Governance {
  import opened Prelude

  datatype Role = OWNER | ADMIN | CONTRIBUTOR | VIEWER
  datatype Status = INVITED | ACTIVE | DECLINED | EXPIRED | LEFT
  datatype ProfileStatus = OPEN_PROFILE | ARCHIVED_PROFILE

  datatype Member = Member(
    profile: Id, user: Id, role: Role, status: Status, nominee: bool, expiresAt: int, version: nat)

  datatype Profile = Profile(owner: Option<Id>, status: ProfileStatus, length: PeriodLength)

  // --- capabilities -------------------------------------------------------------------------

  datatype Capability =
    | VIEW_PROFILE
    | INVITE_MEMBER
    | CHANGE_MEMBER_ROLE
    | REMOVE_MEMBER
    | NOMINATE_OWNER
    | TRANSFER_OWNERSHIP
    | ARCHIVE_PROFILE
    | SET_OWN_INCOME
    | SET_OWN_ALLOCATION
    | RECORD_CONTRIBUTION
    | REDISTRIBUTE_PERCENTAGES
    | MANAGE_SHARED_ELEMENTS
    | SET_DEBT_RESPONSIBILITY

  function RolesFor(c: Capability): set<Role> {
    match c
    case VIEW_PROFILE => {OWNER, ADMIN, CONTRIBUTOR, VIEWER}
    case INVITE_MEMBER => {OWNER, ADMIN}
    case CHANGE_MEMBER_ROLE => {OWNER, ADMIN}
    case REMOVE_MEMBER => {OWNER, ADMIN}
    case NOMINATE_OWNER => {OWNER}
    case TRANSFER_OWNERSHIP => {OWNER}
    case ARCHIVE_PROFILE => {OWNER}
    case SET_OWN_INCOME => {OWNER, ADMIN, CONTRIBUTOR}
    case SET_OWN_ALLOCATION => {OWNER, ADMIN, CONTRIBUTOR}
    case RECORD_CONTRIBUTION => {OWNER, ADMIN, CONTRIBUTOR}
    case REDISTRIBUTE_PERCENTAGES => {OWNER, ADMIN}
    case MANAGE_SHARED_ELEMENTS => {OWNER, ADMIN}
    case SET_DEBT_RESPONSIBILITY => {OWNER, ADMIN}
  }

  predicate Can(role: Role, c: Capability) { role in RolesFor(c) }

  // --- membership transitions ---------------------------------------------------------------

  const INVITATION_TTL_MS := 14 * 24 * 60 * 60 * 1000

  /** The fields a transition changes; an absent field is left alone. */
  datatype Delta = Delta(role: Option<Role>, status: Option<Status>, nominee: Option<bool>)

  function StatusDelta(s: Status): Delta { Delta(None, Some(s), None) }

  function ApplyDelta(m: Member, d: Delta): Member {
    m.(role := if d.role.Some? then d.role.value else m.role,
       status := if d.status.Some? then d.status.value else m.status,
       nominee := if d.nominee.Some? then d.nominee.value else m.nominee)
  }

  predicate IsTerminal(s: Status) { s in {DECLINED, EXPIRED, LEFT} }

  predicate IsInvitationExpired(m: Member, now: int) { m.status == INVITED && now >= m.expiresAt }

  function Accept(m: Member, now: int): Result<Delta> {
    if m.status != INVITED then Err(Invariant)
    else if IsInvitationExpired(m, now) then Err(Invariant)
    else Ok(StatusDelta(ACTIVE))
  }

  function Decline(m: Member): Result<Delta> {
    if m.status != INVITED then Err(Invariant) else Ok(StatusDelta(DECLINED))
  }

  function Expire(m: Member, now: int): Result<Delta> {
    if !IsInvitationExpired(m, now) then Err(Invariant) else Ok(StatusDelta(EXPIRED))
  }

  function Leave(m: Member): Result<Delta> {
    if m.status != ACTIVE then Err(Invariant)
    else if m.role == OWNER then Err(Invariant)
    else Ok(StatusDelta(LEFT))
  }

  function ChangeRole(m: Member, role: Role): Result<Delta> {
    if m.status != ACTIVE then Err(Invariant)
    else if m.role == OWNER then Err(Invariant)
    else if role == OWNER then Err(Invariant)
    else Ok(Delta(Some(role), None, None))
  }

  function NominateOwner(nominee: Member): Result<Delta> {
    if nominee.status != ACTIVE then Err(Invariant)
    else if nominee.role == OWNER then Err(Invariant)
    else Ok(Delta(None, None, Some(true)))
  }

  /** The delta of the nominee and the delta of the outgoing owner. */
  function AcceptOwnership(nominee: Member, currentOwner: Member): Result<(Delta, Delta)> {
    if !nominee.nominee then Err(Invariant)
    else if nominee.status != ACTIVE then Err(Invariant)
    else if currentOwner.role != OWNER then Err(Invariant)
    else Ok((Delta(Some(OWNER), None, Some(false)), Delta(Some(ADMIN), None, None)))
  }

  function ArchiveDecision(p: Profile, actor: Member, activeMembers: nat): Result<ProfileStatus> {
    if p.status == ARCHIVED_PROFILE then Err(Invariant)
    else if actor.role != OWNER then Err(Forbidden)
    else if activeMembers > 1 then Err(Invariant)
    else Ok(ARCHIVED_PROFILE)
  }

  // --- tables and events --------------------------------------------------------------------

  datatype Event =
    | SharedProfileCreated(profile: Id, actor: Id)
    | MemberInvited(member: Id, profile: Id, user: Id, role: Role)
    | InvitationAccepted(member: Id, profile: Id)
    | InvitationDeclined(member: Id, profile: Id)
    | InvitationExpired(member: Id, profile: Id)
    | MemberLeft(member: Id, profile: Id)
    | MemberRoleChanged(member: Id, profile: Id, fromRole: Role, toRole: Role)
    | OwnerNominated(member: Id, profile: Id)
    | OwnershipTransferred(profile: Id, fromMember: Id, toMember: Id)
    | ProfileArchived(profile: Id)

  /** `byPair` is the unique index on (profile, user); `log` is this module's part of the outbox. */
  datatype Gov = Gov(
    profiles: map<Id, Profile>, members: map<Id, Member>, byPair: map<(Id, Id), Id>, log: seq<Event>)

  const EmptyGov := Gov(map[], map[], map[], [])

  function FindByPair(g: Gov, profile: Id, user: Id): Option<Id> {
    if (profile, user) in g.byPair then Some(g.byPair[(profile, user)]) else None
  }

  /** Inserting a row fails on the primary key and on the unique (profile, user) key. */
  function CreateMembership(g: Gov, id: Id, m: Member): Result<Gov> {
    if id in g.members || (m.profile, m.user) in g.byPair then Err(UniqueViolation)
    else Ok(g.(members := g.members[id := m], byPair := g.byPair[(m.profile, m.user) := id]))
  }

  function UpdateMember(g: Gov, id: Id, d: Delta): Gov
    requires id in g.members
  {
    g.(members := g.members[id := ApplyDelta(g.members[id], d)])
  }

  function Append(g: Gov, e: Event): Gov { g.(log := g.log + [e]) }

  function ActiveMembers(g: Gov, profile: Id): set<Id> {
    set m | m in g.members && g.members[m].profile == profile && g.members[m].status == ACTIVE
  }

  function ActiveOwners(g: Gov, profile: Id): set<Id> {
    set m | m in ActiveMembers(g, profile) && g.members[m].role == OWNER
  }

  /** The caller's ACTIVE membership in a profile, provided its role grants the capability. */
  function RequireCapability(g: Gov, profile: Id, user: Id, c: Capability): Result<Id> {
    var found := FindByPair(g, profile, user);
    if found.None? || found.value !in g.members || g.members[found.value].status != ACTIVE then Err(Forbidden)
    else if !Can(g.members[found.value].role, c) then Err(Forbidden)
    else Ok(found.value)
  }

  // --- commands -----------------------------------------------------------------------------

  datatype Command =
    | CreateProfile(user: Id, profile: Id, owner: Id, length: PeriodLength, now: int)
    | Invite(actor: Id, profile: Id, user: Id, role: Role, newId: Id, now: int)
    | AcceptInvitation(user: Id, member: Id, now: int)
    | DeclineInvitation(user: Id, member: Id)
    | LeaveProfile(user: Id, member: Id)
    | ChangeMemberRole(actor: Id, member: Id, role: Role, expectedVersion: nat)
    | Nominate(actor: Id, profile: Id, nominee: Id)
    | TakeOwnership(user: Id, profile: Id)
    | ArchiveProfile(actor: Id, profile: Id)
    | ExpireInvitations(due: seq<Id>, now: int)

  function DoCreateProfile(g: Gov, user: Id, profile: Id, owner: Id, length: PeriodLength, now: int): Result<Gov> {
    if profile in g.profiles then Err(UniqueViolation)
    else
      var g1 := g.(profiles := g.profiles[profile := Profile(Some(owner), OPEN_PROFILE, length)]);
      var created := CreateMembership(g1, owner,
        Member(profile, user, OWNER, ACTIVE, false, now + INVITATION_TTL_MS, 0));
      if created.Err? then Err(created.error)
      else Ok(Append(created.value, SharedProfileCreated(profile, owner)))
  }

  function DoInvite(g: Gov, actor: Id, profile: Id, user: Id, role: Role, newId: Id, now: int): Result<Gov> {
    var check := RequireCapability(g, profile, actor, INVITE_MEMBER);
    var existing := FindByPair(g, profile, user);
    if check.Err? then Err(check.error)
    else if profile !in g.profiles then Err(NotFound)
    else if g.profiles[profile].status != OPEN_PROFILE then Err(Archived)
    else if role == OWNER then Err(Invariant)
    else if existing.Some? && existing.value in g.members && !IsTerminal(g.members[existing.value].status) then
      Err(Invariant)
    else
      var created := CreateMembership(g, newId,
        Member(profile, user, role, INVITED, false, now + INVITATION_TTL_MS, 0));
      if created.Err? then Err(created.error)
      else Ok(Append(created.value, MemberInvited(newId, profile, user, role)))
  }

  /** A member acting on their own row: accept, decline and leave differ only in the decision. */
  function DoOwnTransition(g: Gov, user: Id, member: Id, decide: Member -> Result<Delta>, event: Id -> Event): Result<Gov> {
    if member !in g.members || g.members[member].user != user then Err(NotFound)
    else
      var decision := decide(g.members[member]);
      if decision.Err? then Err(decision.error)
      else Ok(Append(UpdateMember(g, member, decision.value), event(g.members[member].profile)))
  }

  function DoChangeRole(g: Gov, actor: Id, member: Id, role: Role, expectedVersion: nat): Result<Gov> {
    if member !in g.members then Err(NotFound)
    else
      var target := g.members[member];
      var check := RequireCapability(g, target.profile, actor, CHANGE_MEMBER_ROLE);
      if check.Err? then Err(check.error)
      else if target.profile !in g.profiles then Err(NotFound)
      else if g.profiles[target.profile].status != OPEN_PROFILE then Err(Archived)
      else
        var decision := ChangeRole(target, role);
        if decision.Err? then Err(decision.error)
        else if target.version != expectedVersion then Err(Conflict)
        else
          var updated := ApplyDelta(target, decision.value).(version := target.version + 1);
          Ok(Append(g.(members := g.members[member := updated]),
                    MemberRoleChanged(member, target.profile, target.role, role)))
  }

  function DoNominate(g: Gov, actor: Id, profile: Id, nominee: Id): Result<Gov> {
    var check := RequireCapability(g, profile, actor, NOMINATE_OWNER);
    if check.Err? then Err(check.error)
    else if nominee !in g.members || g.members[nominee].profile != profile then Err(NotFound)
    else
      var decision := NominateOwner(g.members[nominee]);
      if decision.Err? then Err(decision.error)
      else Ok(Append(UpdateMember(g, nominee, decision.value), OwnerNominated(nominee, profile)))
  }

  ghost function DoTakeOwnership(g: Gov, user: Id, profile: Id): Result<Gov> {
    var found := FindByPair(g, profile, user);
    if found.None? || found.value !in g.members then Err(NotFound)
    else if ActiveOwners(g, profile) == {} then Err(Invariant)
    else
      var nominee := found.value;
      var owner :| owner in ActiveOwners(g, profile);
      var decision := AcceptOwnership(g.members[nominee], g.members[owner]);
      if decision.Err? then Err(decision.error)
      else if profile !in g.profiles then Err(NotFound)
      else
        var g1 := UpdateMember(g, nominee, decision.value.0);
        var g2 := UpdateMember(g1, owner, decision.value.1);
        var g3 := g2.(profiles := g2.profiles[profile := g2.profiles[profile].(owner := Some(nominee))]);
        Ok(Append(g3, OwnershipTransferred(profile, owner, nominee)))
  }

  function DoArchive(g: Gov, actor: Id, profile: Id): Result<Gov> {
    var check := RequireCapability(g, profile, actor, ARCHIVE_PROFILE);
    if check.Err? then Err(check.error)
    else if profile !in g.profiles then Err(NotFound)
    else
      var p := g.profiles[profile];
      var decision := ArchiveDecision(p, g.members[check.value], |ActiveMembers(g, profile)|);
      if decision.Err? then Err(decision.error)
      else Ok(Append(g.(profiles := g.profiles[profile := p.(status := decision.value)]), ProfileArchived(profile)))
  }

  /** One row of the expiry sweep: anything but a due invitation is passed over. */
  function ExpireOne(g: Gov, member: Id, now: int): Gov {
    if member !in g.members || Expire(g.members[member], now).Err? then g
    else Append(UpdateMember(g, member, StatusDelta(EXPIRED)), InvitationExpired(member, g.members[member].profile))
  }

  function ExpireAll(g: Gov, due: seq<Id>, now: int): Gov {
    if due == [] then g
    else ExpireOne(ExpireAll(g, due[..|due| - 1], now), due[|due| - 1], now)
  }

  ghost function Exec(g: Gov, c: Command): Result<Gov> {
    match c
    case CreateProfile(user, profile, owner, length, now) => DoCreateProfile(g, user, profile, owner, length, now)
    case Invite(actor, profile, user, role, newId, now) => DoInvite(g, actor, profile, user, role, newId, now)
    case AcceptInvitation(user, member, now) => DoOwnTransition(g, user, member, AcceptAt(now), AcceptedEvent(member))
    case DeclineInvitation(user, member) => DoOwnTransition(g, user, member, Decline, DeclinedEvent(member))
    case LeaveProfile(user, member) => DoOwnTransition(g, user, member, Leave, LeftEvent(member))
    case ChangeMemberRole(actor, member, role, expectedVersion) => DoChangeRole(g, actor, member, role, expectedVersion)
    case Nominate(actor, profile, nominee) => DoNominate(g, actor, profile, nominee)
    case TakeOwnership(user, profile) => DoTakeOwnership(g, user, profile)
    case ArchiveProfile(actor, profile) => DoArchive(g, actor, profile)
    case ExpireInvitations(due, now) => Ok(ExpireAll(g, due, now))
  }

  function AcceptAt(now: int): Member -> Result<Delta> { (m: Member) => Accept(m, now) }
  function AcceptedEvent(member: Id): Id -> Event { (p: Id) => InvitationAccepted(member, p) }
  function DeclinedEvent(member: Id): Id -> Event { (p: Id) => InvitationDeclined(member, p) }
  function LeftEvent(member: Id): Id -> Event { (p: Id) => MemberLeft(member, p) }

  /** A rejected command leaves the tables as they were. */
  ghost function Step(g: Gov, c: Command): Gov {
    var r := Exec(g, c);
    if r.Ok? then r.value else g
  }

  ghost function Run(g: Gov, cs: seq<Command>): Gov
    decreases |cs|
  {
    if cs == [] then g else Run(Step(g, cs[0]), cs[1..])
  }
}
