/**
 * When each governance command succeeds and what it leaves behind, in terms of the rows alone, and how
 * long an invitation stays open.
 */
module GovernanceMeaning {
  import opened Prelude
  import opened Governance
  import opened GovernanceProperties
  import opened Authority

  // --- capabilities -------------------------------------------------------------------------

  /** The capability matrix read by role: owners may do everything, viewers only look. */
  lemma RoleTable(c: Capability)
    ensures Can(OWNER, c)
    ensures Can(ADMIN, c) <==> c !in {NOMINATE_OWNER, TRANSFER_OWNERSHIP, ARCHIVE_PROFILE}
    ensures Can(CONTRIBUTOR, c) <==> c in {VIEW_PROFILE, SET_OWN_INCOME, SET_OWN_ALLOCATION, RECORD_CONTRIBUTION}
    ensures Can(VIEWER, c) <==> c == VIEW_PROFILE
  {
  }

  /** The check passes exactly for an ACTIVE member in a role that has the capability. */
  lemma CapabilityIff(g: Gov, profile: Id, user: Id, c: Capability)
    requires Indexed(g)
    ensures RequireCapability(g, profile, user, c).Ok? <==> ActsAs(g, user, profile, RolesFor(c))
  {
    if RequireCapability(g, profile, user, c).Ok? {
      CapabilityMeaning(g, profile, user, c);
    }
    if m :| m in g.members && g.members[m].profile == profile && g.members[m].user == user
            && g.members[m].status == ACTIVE && g.members[m].role in RolesFor(c) {
      assert g.byPair[(profile, user)] == m;
    }
  }

  // --- founding and inviting ----------------------------------------------------------------

  lemma CreateProfileMeaning(g: Gov, user: Id, profile: Id, owner: Id, length: PeriodLength, now: int)
    requires Inv(g)
    ensures var r := Exec(g, CreateProfile(user, profile, owner, length, now));
      && (r.Ok? <==> profile !in g.profiles && owner !in g.members)
      && (r.Ok? ==> r.value == Gov(
            g.profiles[profile := Profile(Some(owner), OPEN_PROFILE, length)],
            g.members[owner := Member(profile, user, OWNER, ACTIVE, false, now + 1209600000, 0)],
            g.byPair[(profile, user) := owner],
            g.log + [SharedProfileCreated(profile, owner)]))
  {
    assert (profile, user) in g.byPair ==> g.members[g.byPair[(profile, user)]].profile == profile;
  }

  lemma InviteMeaning(g: Gov, actor: Id, profile: Id, user: Id, role: Role, newId: Id, now: int)
    requires Inv(g)
    ensures var r := Exec(g, Invite(actor, profile, user, role, newId, now));
      && (r.Ok? <==>
            && ActsAs(g, actor, profile, {OWNER, ADMIN}) && IsOpen(g, profile) && role != OWNER
            && (forall m <- g.members :: !(g.members[m].profile == profile && g.members[m].user == user))
            && newId !in g.members)
      && (r.Ok? ==> r.value == Gov(
            g.profiles,
            g.members[newId := Member(profile, user, role, INVITED, false, now + 1209600000, 0)],
            g.byPair[(profile, user) := newId],
            g.log + [MemberInvited(newId, profile, user, role)]))
  {
    hide RequireCapability;
    CapabilityIff(g, profile, actor, INVITE_MEMBER);
    assert (profile, user) in g.byPair ==> g.members[g.byPair[(profile, user)]].user == user;
  }

  // --- the lifetime of an invitation --------------------------------------------------------

  lemma {:induction false} InvitationKept(g: Gov, cs: seq<Command>, id: Id)
    requires Inv(g) && id in g.members
    ensures var g' := Run(g, cs);
      && Inv(g') && id in g'.members
      && g'.members[id].user == g.members[id].user && g'.members[id].expiresAt == g.members[id].expiresAt
    decreases |cs|
  {
    hide Inv, Step;
    if cs != [] {
      StepKeeps(g, cs[0]);
      EveryChangeIsAuthorised(g, cs[0], id);
      InvitationKept(Step(g, cs[0]), cs[1..], id);
    }
  }

  /** At time `t` the invitee can accept exactly before the deadline, and the sweep expires it from then on. */
  ghost predicate OpenUntil(g: Gov, user: Id, id: Id, deadline: int, t: int) {
    var accepted := Exec(g, AcceptInvitation(user, id, t));
    var swept := Step(g, ExpireInvitations([id], t));
    && (accepted.Ok? <==> t < deadline)
    && (accepted.Ok? ==> id in accepted.value.members && accepted.value.members[id].status == ACTIVE)
    && id in swept.members && (swept.members[id].status == EXPIRED <==> t >= deadline)
  }

  lemma PendingIsOpen(g: Gov, id: Id, t: int)
    requires id in g.members && g.members[id].status == INVITED
    ensures OpenUntil(g, g.members[id].user, id, g.members[id].expiresAt, t)
  {
    SweepMeaning(g, [id], t);
  }

  /**
   * However long the invitee waits and whatever else happens meanwhile: while the invitation is
   * pending, it can be accepted exactly before 14 days are over, and from then on the sweep expires it.
   */
  lemma InvitationLifetime(
    g: Gov, actor: Id, profile: Id, user: Id, role: Role, newId: Id, now: int, cs: seq<Command>, t: int)
    requires Inv(g) && Exec(g, Invite(actor, profile, user, role, newId, now)).Ok?
    ensures var g1 := Exec(g, Invite(actor, profile, user, role, newId, now)).value;
      && newId in g1.members && g1.members[newId].status == INVITED
      && newId in Run(g1, cs).members
      && (Run(g1, cs).members[newId].status == INVITED ==>
            OpenUntil(Run(g1, cs), user, newId, now + 1209600000, t))
  {
    hide Inv, DoInvite, Run, OpenUntil;
    InviteMeaning(g, actor, profile, user, role, newId, now);
    StepKeeps(g, Invite(actor, profile, user, role, newId, now));
    var g1 := Exec(g, Invite(actor, profile, user, role, newId, now)).value;
    InvitationKept(g1, cs, newId);
    if Run(g1, cs).members[newId].status == INVITED {
      PendingIsOpen(Run(g1, cs), newId, t);
    }
  }

  // --- a member's own row -------------------------------------------------------------------

  /** `g` with one row rewritten and one event appended. */
  function Rewritten(g: Gov, id: Id, m: Member, e: Event): Gov {
    Gov(g.profiles, g.members[id := m], g.byPair, g.log + [e])
  }

  predicate OwnRow(g: Gov, user: Id, id: Id) { id in g.members && g.members[id].user == user }

  /** Accepting in time, declining, and leaving unless one is the owner: each exactly when it may. */
  lemma OwnTransitionsMeaning(g: Gov, user: Id, id: Id, now: int)
    ensures var r := Exec(g, AcceptInvitation(user, id, now));
      && (r.Ok? <==> OwnRow(g, user, id) && g.members[id].status == INVITED && now < g.members[id].expiresAt)
      && (r.Ok? ==>
            r.value == Rewritten(g, id, g.members[id].(status := ACTIVE), InvitationAccepted(id, g.members[id].profile)))
    ensures var r := Exec(g, DeclineInvitation(user, id));
      && (r.Ok? <==> OwnRow(g, user, id) && g.members[id].status == INVITED)
      && (r.Ok? ==>
            r.value == Rewritten(g, id, g.members[id].(status := DECLINED), InvitationDeclined(id, g.members[id].profile)))
    ensures var r := Exec(g, LeaveProfile(user, id));
      && (r.Ok? <==> OwnRow(g, user, id) && g.members[id].status == ACTIVE && g.members[id].role != OWNER)
      && (r.Ok? ==> r.value == Rewritten(g, id, g.members[id].(status := LEFT), MemberLeft(id, g.members[id].profile)))
  {
  }

  // --- roles and ownership ------------------------------------------------------------------

  lemma ChangeRoleMeaning(g: Gov, actor: Id, id: Id, role: Role, v: nat)
    requires Inv(g)
    ensures var r := Exec(g, ChangeMemberRole(actor, id, role, v));
      && (r.Ok? <==>
            && id in g.members && ActsAs(g, actor, g.members[id].profile, {OWNER, ADMIN})
            && IsOpen(g, g.members[id].profile) && g.members[id].status == ACTIVE
            && g.members[id].role != OWNER && role != OWNER && g.members[id].version == v)
      && (r.Ok? ==> r.value == Rewritten(g, id, g.members[id].(role := role, version := v + 1),
            MemberRoleChanged(id, g.members[id].profile, g.members[id].role, role)))
  {
    hide RequireCapability;
    if id in g.members { CapabilityIff(g, g.members[id].profile, actor, CHANGE_MEMBER_ROLE); }
  }

  lemma NominateMeaning(g: Gov, actor: Id, profile: Id, id: Id)
    requires Inv(g)
    ensures var r := Exec(g, Nominate(actor, profile, id));
      && (r.Ok? <==>
            && ActsAs(g, actor, profile, {OWNER}) && id in g.members && g.members[id].profile == profile
            && g.members[id].status == ACTIVE && g.members[id].role != OWNER)
      && (r.Ok? ==> r.value == Rewritten(g, id, g.members[id].(nominee := true), OwnerNominated(id, profile)))
  {
    hide RequireCapability;
    CapabilityIff(g, profile, actor, NOMINATE_OWNER);
  }

  /** A nominee who is an ACTIVE member of the profile. */
  predicate Nominated(g: Gov, user: Id, profile: Id, id: Id) {
    && id in g.members && g.members[id].profile == profile && g.members[id].user == user
    && g.members[id].nominee && g.members[id].status == ACTIVE
  }

  lemma NomineeFound(g: Gov, user: Id, profile: Id, id: Id)
    requires Inv(g) && Nominated(g, user, profile, id)
    ensures FindByPair(g, profile, user) == Some(id)
    ensures profile in g.profiles && g.profiles[profile].owner.Some?
    ensures ActiveOwners(g, profile) == {g.profiles[profile].owner.value} && id != g.profiles[profile].owner.value
  {
    var owner := g.profiles[profile].owner.value;
    assert owner in ActiveOwners(g, profile);
    OwnerIsUnique(g, profile, owner);
  }

  /** The nominee is the owner, the owner an admin, and the profile and the log say so. */
  ghost predicate TakenOver(g: Gov, profile: Id, id: Id, g': Gov) {
    && profile in g.profiles && g.profiles[profile].owner.Some? && id in g.members
    && var owner := g.profiles[profile].owner.value;
      && owner in g.members && owner != id
      && g'.profiles == g.profiles[profile := g.profiles[profile].(owner := Some(id))]
      && g'.members == g.members[id := g.members[id].(role := OWNER, nominee := false)]
                                [owner := g.members[owner].(role := ADMIN)]
      && g'.byPair == g.byPair
      && g'.log == g.log + [OwnershipTransferred(profile, owner, id)]
  }

  /** Taking over succeeds exactly for a nominee, swaps the roles and records the new owner. */
  lemma TakeOwnershipMeaning(g: Gov, user: Id, profile: Id, id: Id)
    requires Inv(g)
    ensures Exec(g, TakeOwnership(user, profile)).Ok? <==> exists m :: Nominated(g, user, profile, m)
    ensures Nominated(g, user, profile, id) ==>
      Exec(g, TakeOwnership(user, profile)).Ok? && TakenOver(g, profile, id, Exec(g, TakeOwnership(user, profile)).value)
  {
    var r := DoTakeOwnership(g, user, profile);
    if r.Ok? {
      TakeOwnershipNeedsNominee(g, user, profile);
    }
    if m :| Nominated(g, user, profile, m) {
      NomineeTakesOver(g, user, profile, m);
    }
    if Nominated(g, user, profile, id) {
      NomineeTakesOver(g, user, profile, id);
    }
  }

  lemma TakeOwnershipNeedsNominee(g: Gov, user: Id, profile: Id)
    requires Inv(g) && DoTakeOwnership(g, user, profile).Ok?
    ensures exists m :: Nominated(g, user, profile, m)
  {
    assert Nominated(g, user, profile, FindByPair(g, profile, user).value);
  }

  lemma NomineeTakesOver(g: Gov, user: Id, profile: Id, id: Id)
    requires Inv(g) && Nominated(g, user, profile, id)
    ensures DoTakeOwnership(g, user, profile).Ok? && TakenOver(g, profile, id, DoTakeOwnership(g, user, profile).value)
  {
    NomineeFound(g, user, profile, id);
    var owner := g.profiles[profile].owner.value;
    assert owner in ActiveOwners(g, profile);
    assert forall o <- ActiveOwners(g, profile) :: o == owner;
  }

  lemma ArchiveMeaning(g: Gov, actor: Id, profile: Id)
    requires Inv(g)
    ensures var r := Exec(g, ArchiveProfile(actor, profile));
      && (r.Ok? <==>
            && IsOpen(g, profile) && g.profiles[profile].owner.Some?
            && g.profiles[profile].owner.value in g.members
            && g.members[g.profiles[profile].owner.value].user == actor
            && ActiveMembers(g, profile) == {g.profiles[profile].owner.value})
      && (r.Ok? ==> r.value == Gov(
            g.profiles[profile := g.profiles[profile].(status := ARCHIVED_PROFILE)], g.members, g.byPair,
            g.log + [ProfileArchived(profile)]))
  {
    CapabilityIff(g, profile, actor, ARCHIVE_PROFILE);
    if DoArchive(g, actor, profile).Ok? {
      EveryProfileChangeIsAuthorised(g, ArchiveProfile(actor, profile), profile);
    }
    if profile in g.profiles && ActiveMembers(g, profile) == {g.profiles[profile].owner.value} {
      OwnerActs(g, profile);
    }
  }

  lemma OwnerActs(g: Gov, profile: Id)
    requires Inv(g) && profile in g.profiles
    ensures g.profiles[profile].owner.Some? && g.profiles[profile].owner.value in g.members
    ensures ActsAs(g, g.members[g.profiles[profile].owner.value].user, profile, {OWNER})
  {
    var owner := g.profiles[profile].owner.value;
    assert g.members[owner].profile == profile;
  }

  // --- the sweep ----------------------------------------------------------------------------

  /** A sweep expires exactly the listed invitations that are pending and late, and nothing else. */
  lemma {:induction false} SweepMeaning(g: Gov, due: seq<Id>, now: int)
    ensures var g' := ExpireAll(g, due, now);
      && g'.profiles == g.profiles && g'.byPair == g.byPair && g'.members.Keys == g.members.Keys
      && forall id <- g.members ::
           g'.members[id] ==
             if id in due && g.members[id].status == INVITED && now >= g.members[id].expiresAt
             then g.members[id].(status := EXPIRED) else g.members[id]
    decreases |due|
  {
    if due != [] {
      var rest, last := due[..|due| - 1], due[|due| - 1];
      SweepMeaning(g, rest, now);
      assert due == rest + [last];
    }
  }
}
