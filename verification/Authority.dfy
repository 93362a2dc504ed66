/** Who may change what: every row a governance step changes is explained by a command its actor may give. */
module Authority {
  import opened Prelude
  import opened Governance
  import opened GovernanceProperties

  /** The user is an ACTIVE member of the profile in one of the roles. */
  ghost predicate ActsAs(g: Gov, user: Id, profile: Id, roles: set<Role>) {
    exists m <- g.members ::
      g.members[m].profile == profile && g.members[m].user == user && g.members[m].status == ACTIVE
      && g.members[m].role in roles
  }

  ghost predicate IsOpen(g: Gov, profile: Id) {
    profile in g.profiles && g.profiles[profile].status == OPEN_PROFILE
  }

  /** The invitee in time, the invitee, the sweep once it is late, or the leaver who is not the owner. */
  ghost predicate StatusChange(c: Command, id: Id, m: Member, m': Member) {
    || (c.AcceptInvitation? && c.member == id && c.user == m.user
        && m.status == INVITED && c.now < m.expiresAt && m' == m.(status := ACTIVE))
    || (c == DeclineInvitation(m.user, id) && m.status == INVITED && m' == m.(status := DECLINED))
    || (c.ExpireInvitations? && m.status == INVITED && c.now >= m.expiresAt && m' == m.(status := EXPIRED))
    || (c == LeaveProfile(m.user, id) && m.status == ACTIVE && m.role != OWNER && m' == m.(status := LEFT))
  }

  /** An owner or admin of an open profile, with the version they saw, and never to or from OWNER. */
  ghost predicate RoleChange(g: Gov, c: Command, id: Id, m: Member, m': Member) {
    c.ChangeMemberRole? && c.member == id && c.expectedVersion == m.version
    && ActsAs(g, c.actor, m.profile, {OWNER, ADMIN}) && IsOpen(g, m.profile)
    && m.status == ACTIVE && m.role != OWNER && c.role != OWNER
    && m' == m.(role := c.role, version := m.version + 1)
  }

  /** The owner nominates; only a nominee takes over, and the owner steps down to admin. */
  ghost predicate OwnershipChange(g: Gov, c: Command, id: Id, m: Member, m': Member) {
    || (c.Nominate? && c.nominee == id && ActsAs(g, c.actor, m.profile, {OWNER})
        && m.status == ACTIVE && m.role != OWNER && m' == m.(nominee := true))
    || (c.TakeOwnership? && c.profile == m.profile && c.user == m.user
        && m.nominee && m.status == ACTIVE && m' == m.(role := OWNER, nominee := false))
    || (c.TakeOwnership? && c.profile == m.profile && c.user != m.user
        && m.role == OWNER && m.status == ACTIVE && m' == m.(role := ADMIN))
  }

  ghost predicate Explained(g: Gov, c: Command, id: Id, m: Member, m': Member) {
    m' == m || StatusChange(c, id, m, m') || RoleChange(g, c, id, m, m') || OwnershipChange(g, c, id, m, m')
  }

  /** A founder of a new profile, or somebody new to an open one, invited by its owner or an admin. */
  ghost predicate Admitted(g: Gov, c: Command, id: Id, m: Member) {
    || (c.CreateProfile? && c.owner == id && c.profile !in g.profiles
        && m.profile == c.profile && m.user == c.user && m.role == OWNER && m.status == ACTIVE)
    || (c.Invite? && c.newId == id && ActsAs(g, c.actor, c.profile, {OWNER, ADMIN}) && IsOpen(g, c.profile)
        && m.profile == c.profile && m.user == c.user && m.role == c.role != OWNER && m.status == INVITED
        && (m.profile, m.user) !in g.byPair)
  }

  lemma CapabilityMeaning(g: Gov, profile: Id, user: Id, c: Capability)
    requires Indexed(g) && RequireCapability(g, profile, user, c).Ok?
    ensures ActsAs(g, user, profile, RolesFor(c))
  {
    var m := RequireCapability(g, profile, user, c).value;
    assert m in g.members && g.members[m].profile == profile && g.members[m].user == user;
  }

  lemma {:induction false} ExpireAllExplained(g: Gov, due: seq<Id>, now: int)
    ensures ExpireAll(g, due, now).members.Keys == g.members.Keys
    ensures forall id <- g.members ::
      var m, m' := g.members[id], ExpireAll(g, due, now).members[id];
      m' == m || (m.status == INVITED && now >= m.expiresAt && m' == m.(status := EXPIRED))
    decreases |due|
  {
    if due != [] { ExpireAllExplained(g, due[..|due| - 1], now); }
  }

  // --- existing rows ------------------------------------------------------------------------

  ghost predicate ExplainedIn(g: Gov, c: Command, id: Id, g': Gov)
    requires id in g.members
  {
    id in g'.members && Explained(g, c, id, g.members[id], g'.members[id])
  }

  lemma OwnTransitionExplained(g: Gov, c: Command, id: Id)
    requires id in g.members && (c.AcceptInvitation? || c.DeclineInvitation? || c.LeaveProfile?)
    ensures ExplainedIn(g, c, id, Step(g, c))
  {
  }

  lemma ChangeRoleExplained(g: Gov, c: Command, id: Id)
    requires Indexed(g) && id in g.members && c.ChangeMemberRole?
    ensures ExplainedIn(g, c, id, Step(g, c))
  {
    if DoChangeRole(g, c.actor, c.member, c.role, c.expectedVersion).Ok? {
      CapabilityMeaning(g, g.members[c.member].profile, c.actor, CHANGE_MEMBER_ROLE);
    }
  }

  lemma NominateExplained(g: Gov, c: Command, id: Id)
    requires Indexed(g) && id in g.members && c.Nominate?
    ensures ExplainedIn(g, c, id, Step(g, c))
  {
    if DoNominate(g, c.actor, c.profile, c.nominee).Ok? {
      CapabilityMeaning(g, c.profile, c.actor, NOMINATE_OWNER);
    }
  }

  lemma TakeOwnershipExplained(g: Gov, c: Command, id: Id)
    requires Inv(g) && id in g.members && c.TakeOwnership?
    ensures ExplainedIn(g, c, id, Step(g, c))
  {
    if DoTakeOwnership(g, c.user, c.profile).Ok? {
      var owner, nominee := TakeOwnershipEffect(g, c.user, c.profile);
    }
  }

  lemma OtherRowsStay(g: Gov, c: Command, id: Id)
    requires id in g.members && (c.CreateProfile? || c.Invite? || c.ArchiveProfile?)
    ensures ExplainedIn(g, c, id, Step(g, c))
  {
  }

  /** Whatever the command, a membership row changes only in the ways its actor may change it. */
  lemma EveryChangeIsAuthorised(g: Gov, c: Command, id: Id)
    requires Inv(g) && id in g.members
    ensures id in Step(g, c).members && Explained(g, c, id, g.members[id], Step(g, c).members[id])
  {
    hide Explained;
    if c.AcceptInvitation? || c.DeclineInvitation? || c.LeaveProfile? {
      OwnTransitionExplained(g, c, id);
    } else if c.ChangeMemberRole? {
      ChangeRoleExplained(g, c, id);
    } else if c.Nominate? {
      NominateExplained(g, c, id);
    } else if c.TakeOwnership? {
      TakeOwnershipExplained(g, c, id);
    } else if c.ExpireInvitations? {
      SweepExplained(g, c, id);
    } else {
      OtherRowsStay(g, c, id);
    }
  }

  lemma SweepExplained(g: Gov, c: Command, id: Id)
    requires id in g.members && c.ExpireInvitations?
    ensures ExplainedIn(g, c, id, Step(g, c))
  {
    ExpireAllExplained(g, c.due, c.now);
  }

  // --- new rows -----------------------------------------------------------------------------

  lemma NoNewRows(g: Gov, c: Command)
    requires Inv(g) && !c.CreateProfile? && !c.Invite?
    ensures Step(g, c).members.Keys == g.members.Keys
  {
    hide DoTakeOwnership, ExpireAll, RequireCapability, ActiveMembers, Inv;
    if c.TakeOwnership? {
      TakeOwnershipRows(g, c);
    } else if c.ExpireInvitations? {
      ExpireAllExplained(g, c.due, c.now);
    }
  }

  lemma TakeOwnershipRows(g: Gov, c: Command)
    requires Inv(g) && c.TakeOwnership?
    ensures Step(g, c).members.Keys == g.members.Keys
  {
    if DoTakeOwnership(g, c.user, c.profile).Ok? {
      var owner, nominee := TakeOwnershipEffect(g, c.user, c.profile);
    }
  }

  lemma InviteeIsAdmitted(g: Gov, c: Command, id: Id)
    requires Indexed(g) && c.Invite? && id !in g.members && id in Step(g, c).members
    ensures Admitted(g, c, id, Step(g, c).members[id])
  {
    CapabilityMeaning(g, c.profile, c.actor, INVITE_MEMBER);
  }

  lemma FounderIsAdmitted(g: Gov, c: Command, id: Id)
    requires c.CreateProfile? && id !in g.members && id in Step(g, c).members
    ensures Admitted(g, c, id, Step(g, c).members[id])
  {
  }

  /** A membership row appears only by founding a profile or by an invitation its actor may give. */
  lemma EveryNewcomerIsAdmitted(g: Gov, c: Command, id: Id)
    requires Inv(g) && id !in g.members && id in Step(g, c).members
    ensures Admitted(g, c, id, Step(g, c).members[id])
  {
    hide Step, Admitted;
    if c.Invite? {
      InviteeIsAdmitted(g, c, id);
    } else if c.CreateProfile? {
      FounderIsAdmitted(g, c, id);
    } else {
      NoNewRows(g, c);
    }
  }

  // --- profiles -----------------------------------------------------------------------------

  /** Archived by its owner, alone in it; or taken over by a nominee. */
  ghost predicate ProfileExplained(g: Gov, c: Command, id: Id, p: Profile, p': Profile) {
    || p' == p
    || (c.ArchiveProfile? && c.profile == id && p.status == OPEN_PROFILE && p' == p.(status := ARCHIVED_PROFILE)
        && p.owner.Some? && ActiveMembers(g, id) == {p.owner.value}
        && p.owner.value in g.members && g.members[p.owner.value].user == c.actor)
    || (c.TakeOwnership? && c.profile == id && p'.owner.Some? && p' == p.(owner := p'.owner)
        && p'.owner.value in g.members && g.members[p'.owner.value].nominee
        && g.members[p'.owner.value].user == c.user)
  }

  lemma ArchiveExplained(g: Gov, c: Command, id: Id)
    requires Inv(g) && id in g.profiles && c.ArchiveProfile?
    ensures id in Step(g, c).profiles && ProfileExplained(g, c, id, g.profiles[id], Step(g, c).profiles[id])
  {
    if DoArchive(g, c.actor, c.profile).Ok? && c.profile == id {
      var actor := RequireCapability(g, id, c.actor, ARCHIVE_PROFILE).value;
      assert g.members[actor].role == OWNER && g.members[actor].user == c.actor;
      SoleMember(ActiveMembers(g, id), actor);
    }
  }

  lemma TransferExplained(g: Gov, c: Command, id: Id)
    requires Inv(g) && id in g.profiles && c.TakeOwnership?
    ensures id in Step(g, c).profiles && ProfileExplained(g, c, id, g.profiles[id], Step(g, c).profiles[id])
  {
    if DoTakeOwnership(g, c.user, c.profile).Ok? {
      var owner, nominee := TakeOwnershipEffect(g, c.user, c.profile);
    }
  }

  lemma ProfileStays(g: Gov, c: Command, id: Id)
    requires id in g.profiles && !c.ArchiveProfile? && !c.TakeOwnership?
    ensures id in Step(g, c).profiles && Step(g, c).profiles[id] == g.profiles[id]
  {
    if c.ExpireInvitations? { ExpireAllProfiles(g, c.due, c.now); }
  }

  /** A profile row changes only when its owner, alone, archives it or a nominee takes it over. */
  lemma EveryProfileChangeIsAuthorised(g: Gov, c: Command, id: Id)
    requires Inv(g) && id in g.profiles
    ensures id in Step(g, c).profiles && ProfileExplained(g, c, id, g.profiles[id], Step(g, c).profiles[id])
  {
    hide Step, Inv;
    if c.ArchiveProfile? {
      ArchiveExplained(g, c, id);
    } else if c.TakeOwnership? {
      TransferExplained(g, c, id);
    } else {
      ProfileStays(g, c, id);
    }
  }

  lemma SoleMember(s: set<Id>, x: Id)
    requires x in s && |s| <= 1
    ensures s == {x}
  {
    assert |s - {x}| == 0;
    assert s == {x} + (s - {x});
  }

  lemma {:induction false} ExpireAllProfiles(g: Gov, due: seq<Id>, now: int)
    ensures ExpireAll(g, due, now).profiles == g.profiles
    decreases |due|
  {
    if due != [] { ExpireAllProfiles(g, due[..|due| - 1], now); }
  }
}
