/**
 * The governance use cases in the form the service has: each command is one transaction that looks
 * rows up, asks the domain, writes rows one after another and appends an event. Every method is
 * proved to commit exactly the step `Governance` specifies, or to leave the tables alone.
 */
module ProfilesService {
  import opened Prelude
  import opened Governance
  import opened GovernanceProperties

  /** The transaction committed the specified step, or returned the specified error and wrote nothing. */
  ghost predicate Committed(before: Gov, spec: Result<Gov>, after: Gov, r: Result<Id>) {
    match spec
    case Ok(g') => r.Ok? && after == g'
    case Err(e) => r == Err(e) && after == before
  }

  /** Whatever the step functions keep, the committing methods keep. */
  lemma CommittedKeeps(before: Gov, c: Command, after: Gov, r: Result<Id>)
    requires Inv(before) && Replayed(before) && Committed(before, Exec(before, c), after, r)
    ensures Inv(after) && Replayed(after) && Progresses(before, after)
  {
    StepKeeps(before, c);
    StepReplays(before, c);
    StepProgresses(before, c);
  }

  class GovTables {
    var profiles: map<Id, Profile>
    var members: map<Id, Member>
    var byPair: map<(Id, Id), Id>
    var log: seq<Event>

    function State(): Gov
      reads this
    {
      Gov(profiles, members, byPair, log)
    }

    constructor ()
      ensures State() == EmptyGov
    {
      profiles, members, byPair, log := map[], map[], map[], [];
    }

    // --- repository -------------------------------------------------------------------------

    method InsertMembership(id: Id, m: Member) returns (r: Result<Id>)
      modifies this`members, this`byPair
      ensures Committed(old(State()), CreateMembership(old(State()), id, m), State(), r)
    {
      if id in members || (m.profile, m.user) in byPair { return Err(UniqueViolation); }
      members := members[id := m];
      byPair := byPair[(m.profile, m.user) := id];
      return Ok(id);
    }

    method WriteDelta(id: Id, d: Delta)
      requires id in members
      modifies this`members
      ensures State() == UpdateMember(old(State()), id, d)
    {
      members := members[id := ApplyDelta(members[id], d)];
    }

    method Emit(e: Event)
      modifies this`log
      ensures State() == Append(old(State()), e)
    {
      log := log + [e];
    }

    // --- creation and invitations -----------------------------------------------------------

    method CreateSharedProfile(user: Id, profile: Id, owner: Id, length: PeriodLength, now: int) returns (r: Result<Id>)
      modifies this
      ensures Committed(old(State()), DoCreateProfile(old(State()), user, profile, owner, length, now), State(), r)
    {
      ghost var g := State();
      if profile in profiles { return Err(UniqueViolation); }
      profiles := profiles[profile := Profile(None, OPEN_PROFILE, length)];
      r := InsertMembership(owner, Member(profile, user, OWNER, ACTIVE, false, now + INVITATION_TTL_MS, 0));
      if r.Err? {
        profiles := profiles - {profile};  // the failed insert rolls the transaction back
        assert profiles == g.profiles;
        return;
      }
      profiles := profiles[profile := profiles[profile].(owner := Some(owner))];
      assert profiles == g.profiles[profile := Profile(Some(owner), OPEN_PROFILE, length)];
      Emit(SharedProfileCreated(profile, owner));
    }

    method InviteMember(actor: Id, profile: Id, user: Id, role: Role, newId: Id, now: int) returns (r: Result<Id>)
      modifies this
      ensures Committed(old(State()), DoInvite(old(State()), actor, profile, user, role, newId, now), State(), r)
    {
      var check := RequireCapability(State(), profile, actor, INVITE_MEMBER);
      if check.Err? { return check; }
      if profile !in profiles { return Err(NotFound); }
      if profiles[profile].status != OPEN_PROFILE { return Err(Archived); }
      if role == OWNER { return Err(Invariant); }
      var existing := FindByPair(State(), profile, user);
      if existing.Some? && existing.value in members && !IsTerminal(members[existing.value].status) {
        return Err(Invariant);
      }
      r := InsertMembership(newId, Member(profile, user, role, INVITED, false, now + INVITATION_TTL_MS, 0));
      if r.Err? { return; }
      Emit(MemberInvited(newId, profile, user, role));
    }

    method TransitionOwnMembership(user: Id, member: Id, decide: Member -> Result<Delta>, event: Id -> Event)
      returns (r: Result<Id>)
      modifies this
      ensures Committed(old(State()), DoOwnTransition(old(State()), user, member, decide, event), State(), r)
    {
      if member !in members || members[member].user != user { return Err(NotFound); }
      var decision := decide(members[member]);
      if decision.Err? { return Err(decision.error); }
      var profile := members[member].profile;
      WriteDelta(member, decision.value);
      Emit(event(profile));
      return Ok(member);
    }

    method AcceptInvitation(user: Id, member: Id, now: int) returns (r: Result<Id>)
      modifies this
      ensures Committed(old(State()), Exec(old(State()), Command.AcceptInvitation(user, member, now)), State(), r)
    {
      r := TransitionOwnMembership(user, member, AcceptAt(now), AcceptedEvent(member));
    }

    method DeclineInvitation(user: Id, member: Id) returns (r: Result<Id>)
      modifies this
      ensures Committed(old(State()), Exec(old(State()), Command.DeclineInvitation(user, member)), State(), r)
    {
      r := TransitionOwnMembership(user, member, Decline, DeclinedEvent(member));
    }

    method LeaveProfile(user: Id, member: Id) returns (r: Result<Id>)
      modifies this
      ensures Committed(old(State()), Exec(old(State()), Command.LeaveProfile(user, member)), State(), r)
    {
      r := TransitionOwnMembership(user, member, Leave, LeftEvent(member));
    }

    // --- roles and ownership ----------------------------------------------------------------

    /** Guarded write: the row changes only when it still has the expected version. */
    method ChangeRoleVersioned(id: Id, role: Role, expectedVersion: nat) returns (affected: nat)
      requires id in members
      modifies this`members
      ensures affected == if old(members)[id].version == expectedVersion then 1 else 0
      ensures members == if affected == 0 then old(members) else
        old(members)[id := old(members)[id].(role := role, version := expectedVersion + 1)]
    {
      if members[id].version != expectedVersion { return 0; }
      members := members[id := members[id].(role := role, version := members[id].version + 1)];
      return 1;
    }

    method ChangeMemberRole(actor: Id, member: Id, role: Role, expectedVersion: nat) returns (r: Result<Id>)
      modifies this
      ensures Committed(old(State()), DoChangeRole(old(State()), actor, member, role, expectedVersion), State(), r)
    {
      if member !in members { return Err(NotFound); }
      var target := members[member];
      var check := RequireCapability(State(), target.profile, actor, CHANGE_MEMBER_ROLE);
      if check.Err? { return check; }
      if target.profile !in profiles { return Err(NotFound); }
      if profiles[target.profile].status != OPEN_PROFILE { return Err(Archived); }
      var decision := ChangeRole(target, role);
      if decision.Err? { return Err(decision.error); }
      var affected := ChangeRoleVersioned(member, role, expectedVersion);
      if affected == 0 { return Err(Conflict); }
      Emit(MemberRoleChanged(member, target.profile, target.role, role));
      return Ok(member);
    }

    method NominateNewOwner(actor: Id, profile: Id, nominee: Id) returns (r: Result<Id>)
      modifies this
      ensures Committed(old(State()), DoNominate(old(State()), actor, profile, nominee), State(), r)
    {
      var check := RequireCapability(State(), profile, actor, NOMINATE_OWNER);
      if check.Err? { return check; }
      if nominee !in members || members[nominee].profile != profile { return Err(NotFound); }
      var decision := NominateOwner(members[nominee]);
      if decision.Err? { return Err(decision.error); }
      WriteDelta(nominee, decision.value);
      Emit(OwnerNominated(nominee, profile));
      return Ok(nominee);
    }

    /** The row `find` returns: some ACTIVE owner, whichever order the rows come in. */
    method FindCurrentOwner(profile: Id) returns (owner: Option<Id>)
      requires Inv(State())
      ensures owner.None? <==> ActiveOwners(State(), profile) == {}
      ensures owner.Some? ==> ActiveOwners(State(), profile) == {owner.value}
    {
      var rows := set m | m in members && members[m].profile == profile;
      while rows != {}
        invariant forall m <- ActiveOwners(State(), profile) :: m in rows
        invariant forall m <- rows :: m in members && members[m].profile == profile
        decreases rows
      {
        var m :| m in rows;
        if members[m].role == OWNER && members[m].status == ACTIVE {
          OwnerIsUnique(State(), profile, m);
          return Some(m);
        }
        rows := rows - {m};
      }
      return None;
    }

    method AcceptOwnershipTransfer(user: Id, profile: Id) returns (r: Result<Id>)
      requires Inv(State())
      modifies this
      ensures Committed(old(State()), DoTakeOwnership(old(State()), user, profile), State(), r)
    {
      ghost var g := State();
      var found := FindByPair(State(), profile, user);
      if found.None? || found.value !in members { return Err(NotFound); }
      var nominee := found.value;
      var current := FindCurrentOwner(profile);
      if current.None? { return Err(Invariant); }
      var owner := current.value;
      OwnerIsUnique(g, profile, owner);
      assert forall o | o in ActiveOwners(g, profile) :: o == owner;
      var decision := AcceptOwnership(members[nominee], members[owner]);
      if decision.Err? { return Err(decision.error); }
      WriteDelta(nominee, decision.value.0);
      WriteDelta(owner, decision.value.1);
      profiles := profiles[profile := profiles[profile].(owner := Some(nominee))];
      Emit(OwnershipTransferred(profile, owner, nominee));
      return Ok(profile);
    }

    method CloseProfile(actor: Id, profile: Id) returns (r: Result<Id>)
      modifies this
      ensures Committed(old(State()), DoArchive(old(State()), actor, profile), State(), r)
    {
      var check := RequireCapability(State(), profile, actor, ARCHIVE_PROFILE);
      if check.Err? { return check; }
      if profile !in profiles { return Err(NotFound); }
      var active := |ActiveMembers(State(), profile)|;
      var decision := ArchiveDecision(profiles[profile], members[check.value], active);
      if decision.Err? { return Err(decision.error); }
      profiles := profiles[profile := profiles[profile].(status := decision.value)];
      Emit(ProfileArchived(profile));
      return Ok(profile);
    }

    // --- expiry sweep -----------------------------------------------------------------------

    /** Some due invitations, in some order: all of them unless there are more than the page holds. */
    method FindDueInvitations(now: int, page: nat) returns (due: seq<Id>)
      ensures DueRows(State(), due, now)
      ensures |due| <= page
      ensures |due| < page ==> forall m <- members :: IsInvitationExpired(members[m], now) ==> m in due
    {
      due := [];
      var rows := members.Keys;
      while rows != {} && |due| < page
        invariant rows <= members.Keys && |due| <= page
        invariant forall m <- members :: IsInvitationExpired(members[m], now) ==> m in rows || m in due
        invariant forall i | 0 <= i < |due| :: due[i] !in rows
        invariant DueRows(State(), due, now)
        decreases rows
      {
        var m :| m in rows;
        rows := rows - {m};
        if IsInvitationExpired(members[m], now) { due := due + [m]; }
      }
    }

    /** The sweep of one tenant: every fetched row expires, and a short page leaves nothing due. */
    method ExpireInvitationsForTenant(now: int) returns (expired: nat, due: seq<Id>)
      modifies this
      ensures State() == ExpireAll(old(State()), due, now)
      ensures expired == |due| <= 500 && |log| == |old(log)| + expired
      ensures expired < 500 ==> forall m <- members :: !IsInvitationExpired(members[m], now)
    {
      ghost var g := State();
      due := FindDueInvitations(now, 500);
      expired := 0;
      for i := 0 to |due|
        invariant State() == ExpireAll(g, due[..i], now)
        invariant expired == i
      {
        assert due[..i + 1][..i] == due[..i];
        ExpireAllEffect(g, due[..i], now);
        assert due[i] !in due[..i];
        var row := members[due[i]];
        WriteDelta(due[i], StatusDelta(EXPIRED));
        Emit(InvitationExpired(due[i], row.profile));
        expired := expired + 1;
      }
      assert due[..|due|] == due;
      ExpireAllEffect(g, due, now);
    }
  }
}
