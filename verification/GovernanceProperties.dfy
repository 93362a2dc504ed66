/** What governance keeps over every run: a single owner, absorbing ends, and a log that rebuilds the tables. */
module GovernanceProperties {
  import opened Prelude
  import opened Governance

  // --- the invariant ------------------------------------------------------------------------

  /** The unique index mirrors the membership table, and every membership belongs to a profile. */
  ghost predicate Indexed(g: Gov) {
    && (forall m <- g.members :: (g.members[m].profile, g.members[m].user) in g.byPair
         && g.byPair[(g.members[m].profile, g.members[m].user)] == m)
    && (forall k <- g.byPair :: g.byPair[k] in g.members
         && g.members[g.byPair[k]].profile == k.0 && g.members[g.byPair[k]].user == k.1)
    && (forall m <- g.members :: g.members[m].profile in g.profiles)
  }

  /** Each profile names an ACTIVE owner of its own, and nobody else in it is an owner. */
  ghost predicate Owned(g: Gov) {
    && (forall p <- g.profiles :: g.profiles[p].owner.Some? && g.profiles[p].owner.value in g.members
         && IsOwnerOf(g.members[g.profiles[p].owner.value], p))
    && (forall m <- g.members :: g.members[m].role == OWNER && g.members[m].profile in g.profiles ==>
         g.profiles[g.members[m].profile].owner == Some(m))
  }

  /** An owner never carries the nominee flag; without this the invariant is not inductive. */
  ghost predicate IsOwnerOf(m: Member, profile: Id) {
    m.profile == profile && m.role == OWNER && m.status == ACTIVE && !m.nominee
  }

  ghost predicate Inv(g: Gov) { Indexed(g) && Owned(g) }

  lemma OwnerIsUnique(g: Gov, profile: Id, owner: Id)
    requires Inv(g) && owner in ActiveOwners(g, profile)
    ensures profile in g.profiles && g.profiles[profile].owner == Some(owner)
    ensures ActiveOwners(g, profile) == {owner}
  {
  }

  lemma RewriteIndexed(g: Gov, id: Id, m: Member, g': Gov)
    requires Indexed(g) && id in g.members
    requires m.profile == g.members[id].profile && m.user == g.members[id].user
    requires g'.profiles == g.profiles && g'.byPair == g.byPair && g'.members == g.members[id := m]
    ensures Indexed(g')
  {
    forall x | x in g.members ensures g'.members[x].profile == g.members[x].profile && g'.members[x].user == g.members[x].user {
    }
  }

  /** Rewriting a row that is not and does not become an owner. */
  lemma RewriteKeeps(g: Gov, id: Id, m: Member, g': Gov)
    requires Inv(g) && id in g.members
    requires m.profile == g.members[id].profile && m.user == g.members[id].user
    requires g.members[id].role != OWNER && m.role != OWNER
    requires g'.profiles == g.profiles && g'.byPair == g.byPair && g'.members == g.members[id := m]
    ensures Inv(g')
  {
    RewriteIndexed(g, id, m, g');
  }

  lemma InsertIndexed(g: Gov, id: Id, m: Member, g': Gov)
    requires Indexed(g) && id !in g.members && (m.profile, m.user) !in g.byPair
    requires g.profiles.Keys <= g'.profiles.Keys && m.profile in g'.profiles
    requires g'.members == g.members[id := m] && g'.byPair == g.byPair[(m.profile, m.user) := id]
    ensures Indexed(g')
  {
    forall x | x in g'.members
      ensures (g'.members[x].profile, g'.members[x].user) in g'.byPair
      ensures g'.byPair[(g'.members[x].profile, g'.members[x].user)] == x
      ensures g'.members[x].profile in g'.profiles
    {
      if x != id { assert x in g.members && g'.members[x] == g.members[x]; }
    }
    forall k | k in g'.byPair
      ensures g'.byPair[k] in g'.members
      ensures g'.members[g'.byPair[k]].profile == k.0 && g'.members[g'.byPair[k]].user == k.1
    {
      if k != (m.profile, m.user) { assert g'.byPair[k] == g.byPair[k] && g.byPair[k] != id; }
    }
  }

  lemma InsertOwned(g: Gov, id: Id, m: Member, g': Gov)
    requires Owned(g) && id !in g.members && m.role != OWNER
    requires g'.profiles == g.profiles && g'.members == g.members[id := m]
    ensures Owned(g')
  {
  }

  lemma OwnTransitionKeeps(g: Gov, user: Id, member: Id, decide: Member -> Result<Delta>, event: Id -> Event)
    requires Inv(g) && DoOwnTransition(g, user, member, decide, event).Ok?
    requires decide(g.members[member]).value.role.None? && g.members[member].role != OWNER
    ensures Inv(DoOwnTransition(g, user, member, decide, event).value)
  {
    var g' := DoOwnTransition(g, user, member, decide, event).value;
    RewriteKeeps(g, member, g'.members[member], g');
  }

  lemma ExpireOneKeeps(g: Gov, member: Id, now: int)
    requires Inv(g)
    ensures Inv(ExpireOne(g, member, now))
  {
    var g' := ExpireOne(g, member, now);
    if g' != g { RewriteKeeps(g, member, g'.members[member], g'); }
  }

  lemma {:induction false} ExpireAllKeeps(g: Gov, due: seq<Id>, now: int)
    requires Inv(g)
    ensures Inv(ExpireAll(g, due, now))
  {
    if due != [] {
      ExpireAllKeeps(g, due[..|due| - 1], now);
      ExpireOneKeeps(ExpireAll(g, due[..|due| - 1], now), due[|due| - 1], now);
    }
  }

  ghost predicate DueRows(g: Gov, due: seq<Id>, now: int) {
    && (forall i | 0 <= i < |due| :: due[i] in g.members && IsInvitationExpired(g.members[due[i]], now))
    && (forall i, j | 0 <= i < j < |due| :: due[i] != due[j])
  }

  /** A sweep over distinct due rows expires exactly those and logs one event for each. */
  lemma {:induction false} ExpireAllEffect(g: Gov, due: seq<Id>, now: int)
    requires DueRows(g, due, now)
    ensures var g' := ExpireAll(g, due, now);
      && g'.profiles == g.profiles && g'.byPair == g.byPair && |g'.log| == |g.log| + |due|
      && g'.members.Keys == g.members.Keys
      && forall m <- g.members :: g'.members[m] == if m in due then g.members[m].(status := EXPIRED) else g.members[m]
  {
    if due != [] {
      var rest, last := due[..|due| - 1], due[|due| - 1];
      ExpireAllEffect(g, rest, now);
      assert due == rest + [last];
      assert last !in rest;
    }
  }

  lemma CreateProfileKeeps(g: Gov, user: Id, profile: Id, owner: Id, length: PeriodLength, now: int)
    requires Inv(g) && DoCreateProfile(g, user, profile, owner, length, now).Ok?
    ensures Inv(DoCreateProfile(g, user, profile, owner, length, now).value)
  {
    var g' := DoCreateProfile(g, user, profile, owner, length, now).value;
    var m := Member(profile, user, OWNER, ACTIVE, false, now + INVITATION_TTL_MS, 0);
    InsertIndexed(g, owner, m, g');
    FoundingOwned(g, profile, owner, m, Profile(Some(owner), OPEN_PROFILE, length), g');
  }

  lemma FoundingOwned(g: Gov, profile: Id, owner: Id, m: Member, p: Profile, g': Gov)
    requires Inv(g) && profile !in g.profiles && owner !in g.members
    requires IsOwnerOf(m, profile) && p.owner == Some(owner)
    requires g'.members == g.members[owner := m] && g'.profiles == g.profiles[profile := p]
    ensures Owned(g')
  {
    forall q | q in g'.profiles
      ensures g'.profiles[q].owner.Some? && g'.profiles[q].owner.value in g'.members
      ensures IsOwnerOf(g'.members[g'.profiles[q].owner.value], q)
    {
      if q != profile { assert g'.profiles[q] == g.profiles[q]; }
    }
    forall x | x in g'.members && g'.members[x].role == OWNER && g'.members[x].profile in g'.profiles
      ensures g'.profiles[g'.members[x].profile].owner == Some(x)
    {
      if x != owner { assert g'.members[x] == g.members[x] && g.members[x].profile in g.profiles; }
    }
  }

  lemma InviteKeeps(g: Gov, actor: Id, profile: Id, user: Id, role: Role, newId: Id, now: int)
    requires Inv(g) && DoInvite(g, actor, profile, user, role, newId, now).Ok?
    ensures Inv(DoInvite(g, actor, profile, user, role, newId, now).value)
  {
    var g' := DoInvite(g, actor, profile, user, role, newId, now).value;
    var m := Member(profile, user, role, INVITED, false, now + INVITATION_TTL_MS, 0);
    InsertIndexed(g, newId, m, g');
    InsertOwned(g, newId, m, g');
  }

  lemma ChangeRoleKeeps(g: Gov, actor: Id, member: Id, role: Role, expectedVersion: nat)
    requires Inv(g) && DoChangeRole(g, actor, member, role, expectedVersion).Ok?
    ensures Inv(DoChangeRole(g, actor, member, role, expectedVersion).value)
  {
    var g' := DoChangeRole(g, actor, member, role, expectedVersion).value;
    RewriteKeeps(g, member, g'.members[member], g');
  }

  lemma NominateKeeps(g: Gov, actor: Id, profile: Id, nominee: Id)
    requires Inv(g) && DoNominate(g, actor, profile, nominee).Ok?
    ensures Inv(DoNominate(g, actor, profile, nominee).value)
  {
    var g' := DoNominate(g, actor, profile, nominee).value;
    RewriteKeeps(g, nominee, g'.members[nominee], g');
  }

  /** The rows and the owner column after a transfer. */
  lemma TakeOwnershipEffect(g: Gov, user: Id, profile: Id) returns (owner: Id, nominee: Id)
    requires Inv(g) && DoTakeOwnership(g, user, profile).Ok?
    ensures var g' := DoTakeOwnership(g, user, profile).value;
      && Transferred(g, owner, nominee, profile, g')
      && g'.log == g.log + [OwnershipTransferred(profile, owner, nominee)]
  {
    nominee := FindByPair(g, profile, user).value;
    owner :| owner in ActiveOwners(g, profile);
    OwnerIsUnique(g, profile, owner);
  }

  lemma TakeOwnershipKeeps(g: Gov, user: Id, profile: Id)
    requires Inv(g) && DoTakeOwnership(g, user, profile).Ok?
    ensures Inv(DoTakeOwnership(g, user, profile).value)
  {
    var owner, nominee := TakeOwnershipEffect(g, user, profile);
    TransferIndexed(g, owner, nominee, profile, DoTakeOwnership(g, user, profile).value);
    TransferOwned(g, owner, nominee, profile, DoTakeOwnership(g, user, profile).value);
  }

  /** `g'` is `g` after `nominee` takes `profile` over from `owner`. */
  ghost predicate Transferred(g: Gov, owner: Id, nominee: Id, profile: Id, g': Gov) {
    && profile in g.profiles && g.profiles[profile].owner == Some(owner)
    && nominee in g.members && owner in g.members && nominee != owner
    && g.members[nominee].profile == profile && g.members[nominee].status == ACTIVE
    && g'.members == g.members[nominee := g.members[nominee].(role := OWNER, nominee := false)]
                              [owner := g.members[owner].(role := ADMIN)]
    && g'.byPair == g.byPair
    && g'.profiles == g.profiles[profile := g.profiles[profile].(owner := Some(nominee))]
  }

  lemma TransferIndexed(g: Gov, owner: Id, nominee: Id, profile: Id, g': Gov)
    requires Inv(g) && Transferred(g, owner, nominee, profile, g')
    ensures Indexed(g')
  {
    forall x | x in g.members ensures g'.members[x].profile == g.members[x].profile && g'.members[x].user == g.members[x].user {
    }
  }

  lemma TransferOwned(g: Gov, owner: Id, nominee: Id, profile: Id, g': Gov)
    requires Inv(g) && Transferred(g, owner, nominee, profile, g')
    ensures Owned(g')
  {
  }

  lemma ArchiveKeeps(g: Gov, actor: Id, profile: Id)
    requires Inv(g) && DoArchive(g, actor, profile).Ok?
    ensures Inv(DoArchive(g, actor, profile).value)
  {
  }

  lemma StepKeeps(g: Gov, c: Command)
    requires Inv(g)
    ensures Inv(Step(g, c))
  {
    hide DoCreateProfile, DoInvite, DoChangeRole, DoNominate, DoTakeOwnership, DoArchive, ExpireAll;
    if Exec(g, c).Ok? {
      match c
      case CreateProfile(user, profile, owner, length, now) => CreateProfileKeeps(g, user, profile, owner, length, now);
      case Invite(actor, profile, user, role, newId, now) => InviteKeeps(g, actor, profile, user, role, newId, now);
      case AcceptInvitation(user, member, now) => OwnTransitionKeeps(g, user, member, AcceptAt(now), AcceptedEvent(member));
      case DeclineInvitation(user, member) => OwnTransitionKeeps(g, user, member, Decline, DeclinedEvent(member));
      case LeaveProfile(user, member) => OwnTransitionKeeps(g, user, member, Leave, LeftEvent(member));
      case ChangeMemberRole(actor, member, role, version) => ChangeRoleKeeps(g, actor, member, role, version);
      case Nominate(actor, profile, nominee) => NominateKeeps(g, actor, profile, nominee);
      case TakeOwnership(user, profile) => TakeOwnershipKeeps(g, user, profile);
      case ArchiveProfile(actor, profile) => ArchiveKeeps(g, actor, profile);
      case ExpireInvitations(due, now) => ExpireAllKeeps(g, due, now);
    }
  }

  lemma {:induction false} RunKeeps(g: Gov, cs: seq<Command>)
    requires Inv(g)
    ensures Inv(Run(g, cs))
    decreases |cs|
  {
    if cs != [] {
      StepKeeps(g, cs[0]);
      RunKeeps(Step(g, cs[0]), cs[1..]);
    }
  }

  /** In every reachable state a profile has exactly one owner, ACTIVE, and it is the one on record. */
  lemma SingleOwner(cs: seq<Command>, profile: Id)
    requires profile in Run(EmptyGov, cs).profiles
    ensures var g := Run(EmptyGov, cs);
      && g.profiles[profile].owner.Some?
      && (set m | m in g.members && g.members[m].profile == profile && g.members[m].role == OWNER)
           == {g.profiles[profile].owner.value} == ActiveOwners(g, profile)
  {
    RunKeeps(EmptyGov, cs);
  }

  // --- replay -------------------------------------------------------------------------------

  datatype MemberView = MemberView(profile: Id, role: Role, status: Status, nominee: bool)
  datatype ProfileView = ProfileView(owner: Option<Id>, status: ProfileStatus)
  datatype View = View(profiles: map<Id, ProfileView>, members: map<Id, MemberView>)

  function ViewMember(m: Member): MemberView { MemberView(m.profile, m.role, m.status, m.nominee) }
  function ViewProfile(p: Profile): ProfileView { ProfileView(p.owner, p.status) }

  /** What the governance tables say, dates, versions and users aside. */
  function ViewOf(g: Gov): View {
    View(map p | p in g.profiles :: ViewProfile(g.profiles[p]), map m | m in g.members :: ViewMember(g.members[m]))
  }

  function SetStatus(v: View, m: Id, s: Status): View {
    if m in v.members then v.(members := v.members[m := v.members[m].(status := s)]) else v
  }

  /** A consumer's reading of one event, knowing nothing but the events before it. */
  function Fold(v: View, e: Event): View {
    match e
    case SharedProfileCreated(p, owner) =>
      View(v.profiles[p := ProfileView(Some(owner), OPEN_PROFILE)],
           v.members[owner := MemberView(p, OWNER, ACTIVE, false)])
    case MemberInvited(m, p, _, role) => v.(members := v.members[m := MemberView(p, role, INVITED, false)])
    case InvitationAccepted(m, _) => SetStatus(v, m, ACTIVE)
    case InvitationDeclined(m, _) => SetStatus(v, m, DECLINED)
    case InvitationExpired(m, _) => SetStatus(v, m, EXPIRED)
    case MemberLeft(m, _) => SetStatus(v, m, LEFT)
    case MemberRoleChanged(m, _, _, role) =>
      if m in v.members then v.(members := v.members[m := v.members[m].(role := role)]) else v
    case OwnerNominated(m, _) =>
      if m in v.members then v.(members := v.members[m := v.members[m].(nominee := true)]) else v
    case OwnershipTransferred(p, from, to) =>
      if p in v.profiles && from in v.members && to in v.members then
        View(v.profiles[p := v.profiles[p].(owner := Some(to))],
             v.members[to := v.members[to].(role := OWNER, nominee := false)][from := v.members[from].(role := ADMIN)])
      else v
    case ProfileArchived(p) =>
      if p in v.profiles then v.(profiles := v.profiles[p := v.profiles[p].(status := ARCHIVED_PROFILE)]) else v
  }

  function Replay(log: seq<Event>): View {
    if log == [] then View(map[], map[]) else Fold(Replay(log[..|log| - 1]), log[|log| - 1])
  }

  lemma ReplaySnoc(log: seq<Event>, e: Event)
    ensures Replay(log + [e]) == Fold(Replay(log), e)
  {
    assert (log + [e])[..|log|] == log;
  }

  ghost predicate Replayed(g: Gov) { Replay(g.log) == ViewOf(g) }

  lemma ViewMemberUpdate(g: Gov, id: Id, m: Member, g': Gov)
    requires g'.profiles == g.profiles && g'.members == g.members[id := m]
    ensures ViewOf(g') == View(ViewOf(g).profiles, ViewOf(g).members[id := ViewMember(m)])
  {
  }

  lemma ViewProfileUpdate(g: Gov, id: Id, p: Profile, g': Gov)
    requires g'.members == g.members && g'.profiles == g.profiles[id := p]
    ensures ViewOf(g') == View(ViewOf(g).profiles[id := ViewProfile(p)], ViewOf(g).members)
  {
  }

  /** A step that appends one event keeps the log faithful when the fold moves the view as the step does. */
  lemma OneEvent(g: Gov, e: Event, g': Gov)
    requires Replayed(g) && g'.log == g.log + [e] && ViewOf(g') == Fold(ViewOf(g), e)
    ensures Replayed(g')
  {
    ReplaySnoc(g.log, e);
  }

  lemma OwnTransitionReplays(
    g: Gov, user: Id, member: Id, decide: Member -> Result<Delta>, event: Id -> Event, s: Status)
    requires Replayed(g) && DoOwnTransition(g, user, member, decide, event).Ok?
    requires decide(g.members[member]).value == StatusDelta(s)
    requires forall v, p :: Fold(v, event(p)) == SetStatus(v, member, s)
    ensures Replayed(DoOwnTransition(g, user, member, decide, event).value)
  {
    var g' := DoOwnTransition(g, user, member, decide, event).value;
    var e := event(g.members[member].profile);
    ViewMemberUpdate(g, member, g'.members[member], g');
    assert Fold(ViewOf(g), e) == SetStatus(ViewOf(g), member, s);
    OneEvent(g, e, g');
  }

  lemma ExpireOneReplays(g: Gov, member: Id, now: int)
    requires Replayed(g)
    ensures Replayed(ExpireOne(g, member, now))
  {
    var g' := ExpireOne(g, member, now);
    if g' != g {
      var e := InvitationExpired(member, g.members[member].profile);
      ViewMemberUpdate(g, member, g'.members[member], g');
      OneEvent(g, e, g');
    }
  }

  lemma {:induction false} ExpireAllReplays(g: Gov, due: seq<Id>, now: int)
    requires Replayed(g)
    ensures Replayed(ExpireAll(g, due, now))
  {
    if due != [] {
      ExpireAllReplays(g, due[..|due| - 1], now);
      ExpireOneReplays(ExpireAll(g, due[..|due| - 1], now), due[|due| - 1], now);
    }
  }

  lemma CreateProfileReplays(g: Gov, user: Id, profile: Id, owner: Id, length: PeriodLength, now: int)
    requires Replayed(g) && DoCreateProfile(g, user, profile, owner, length, now).Ok?
    ensures Replayed(DoCreateProfile(g, user, profile, owner, length, now).value)
  {
    var g' := DoCreateProfile(g, user, profile, owner, length, now).value;
    var e := SharedProfileCreated(profile, owner);
    var g1 := g.(profiles := g'.profiles);
    ViewProfileUpdate(g, profile, g'.profiles[profile], g1);
    ViewMemberUpdate(g1, owner, g'.members[owner], g');
    OneEvent(g, e, g');
  }

  lemma InviteReplays(g: Gov, actor: Id, profile: Id, user: Id, role: Role, newId: Id, now: int)
    requires Replayed(g) && DoInvite(g, actor, profile, user, role, newId, now).Ok?
    ensures Replayed(DoInvite(g, actor, profile, user, role, newId, now).value)
  {
    var g' := DoInvite(g, actor, profile, user, role, newId, now).value;
    var e := MemberInvited(newId, profile, user, role);
    ViewMemberUpdate(g, newId, g'.members[newId], g');
    OneEvent(g, e, g');
  }

  lemma ChangeRoleReplays(g: Gov, actor: Id, member: Id, role: Role, expectedVersion: nat)
    requires Replayed(g) && DoChangeRole(g, actor, member, role, expectedVersion).Ok?
    ensures Replayed(DoChangeRole(g, actor, member, role, expectedVersion).value)
  {
    var g' := DoChangeRole(g, actor, member, role, expectedVersion).value;
    var e := MemberRoleChanged(member, g.members[member].profile, g.members[member].role, role);
    ViewMemberUpdate(g, member, g'.members[member], g');
    OneEvent(g, e, g');
  }

  lemma NominateReplays(g: Gov, actor: Id, profile: Id, nominee: Id)
    requires Replayed(g) && DoNominate(g, actor, profile, nominee).Ok?
    ensures Replayed(DoNominate(g, actor, profile, nominee).value)
  {
    var g' := DoNominate(g, actor, profile, nominee).value;
    ViewMemberUpdate(g, nominee, g'.members[nominee], g');
    OneEvent(g, OwnerNominated(nominee, profile), g');
  }

  lemma TakeOwnershipReplays(g: Gov, user: Id, profile: Id)
    requires Inv(g) && Replayed(g) && DoTakeOwnership(g, user, profile).Ok?
    ensures Replayed(DoTakeOwnership(g, user, profile).value)
  {
    var owner, nominee := TakeOwnershipEffect(g, user, profile);
    var g' := DoTakeOwnership(g, user, profile).value;
    var e := OwnershipTransferred(profile, owner, nominee);
    var m := g.members[nominee].(role := OWNER, nominee := false);
    var g1 := g.(members := g.members[nominee := m]);
    ViewMemberUpdate(g, nominee, m, g1);
    var g2 := g1.(members := g'.members);
    ViewMemberUpdate(g1, owner, g'.members[owner], g2);
    ViewProfileUpdate(g2, profile, g'.profiles[profile], g');
    OneEvent(g, e, g');
  }

  lemma ArchiveReplays(g: Gov, actor: Id, profile: Id)
    requires Replayed(g) && DoArchive(g, actor, profile).Ok?
    ensures Replayed(DoArchive(g, actor, profile).value)
  {
    var g' := DoArchive(g, actor, profile).value;
    ViewProfileUpdate(g, profile, g'.profiles[profile], g');
    OneEvent(g, ProfileArchived(profile), g');
  }

  lemma StepReplays(g: Gov, c: Command)
    requires Inv(g) && Replayed(g)
    ensures Replayed(Step(g, c))
  {
    hide Replayed, Inv, DoCreateProfile, DoInvite, DoChangeRole, DoNominate, DoTakeOwnership, DoArchive, ExpireAll;
    if Exec(g, c).Ok? {
      match c
      case CreateProfile(user, profile, owner, length, now) => CreateProfileReplays(g, user, profile, owner, length, now);
      case Invite(actor, profile, user, role, newId, now) => InviteReplays(g, actor, profile, user, role, newId, now);
      case AcceptInvitation(user, member, now) =>
        OwnTransitionReplays(g, user, member, AcceptAt(now), AcceptedEvent(member), ACTIVE);
      case DeclineInvitation(user, member) => OwnTransitionReplays(g, user, member, Decline, DeclinedEvent(member), DECLINED);
      case LeaveProfile(user, member) => OwnTransitionReplays(g, user, member, Leave, LeftEvent(member), LEFT);
      case ChangeMemberRole(actor, member, role, version) => ChangeRoleReplays(g, actor, member, role, version);
      case Nominate(actor, profile, nominee) => NominateReplays(g, actor, profile, nominee);
      case TakeOwnership(user, profile) => TakeOwnershipReplays(g, user, profile);
      case ArchiveProfile(actor, profile) => ArchiveReplays(g, actor, profile);
      case ExpireInvitations(due, now) => ExpireAllReplays(g, due, now);
    }
  }

  lemma {:induction false} RunReplays(g: Gov, cs: seq<Command>)
    requires Inv(g) && Replayed(g)
    ensures Replayed(Run(g, cs))
    decreases |cs|
  {
    if cs != [] {
      StepKeeps(g, cs[0]);
      StepReplays(g, cs[0]);
      RunReplays(Step(g, cs[0]), cs[1..]);
    }
  }

  /** After any run, folding the emitted events in order rebuilds the governance tables. */
  lemma EventsRebuildState(cs: seq<Command>)
    ensures Replay(Run(EmptyGov, cs).log) == ViewOf(Run(EmptyGov, cs))
  {
    RunReplays(EmptyGov, cs);
  }

  // --- absorbing states ---------------------------------------------------------------------

  /** Rows stay, ended memberships stay ended, and nobody becomes INVITED again. */
  ghost predicate MembersProgress(ms: map<Id, Member>, ms': map<Id, Member>) {
    forall m <- ms :: m in ms'
      && ms'[m].profile == ms[m].profile && ms'[m].user == ms[m].user
      && (IsTerminal(ms[m].status) ==> ms'[m].status == ms[m].status)
      && (ms'[m].status == INVITED ==> ms[m].status == INVITED)
  }

  ghost predicate ProfilesProgress(ps: map<Id, Profile>, ps': map<Id, Profile>) {
    forall p <- ps :: p in ps' && ps'[p].length == ps[p].length
      && (ps[p].status == ARCHIVED_PROFILE ==> ps'[p].status == ARCHIVED_PROFILE)
  }

  /** What no step undoes; the event log only grows. */
  ghost predicate Progresses(g: Gov, g': Gov) {
    MembersProgress(g.members, g'.members) && ProfilesProgress(g.profiles, g'.profiles) && g.log <= g'.log
  }

  lemma {:induction false} ExpireAllProgresses(g: Gov, due: seq<Id>, now: int)
    ensures Progresses(g, ExpireAll(g, due, now))
  {
    if due != [] { ExpireAllProgresses(g, due[..|due| - 1], now); }
  }

  lemma MemberProgresses(g: Gov, id: Id, m: Member, g': Gov)
    requires g'.profiles == g.profiles && g'.members == g.members[id := m] && g.log <= g'.log
    requires id in g.members ==>
      && m.profile == g.members[id].profile && m.user == g.members[id].user
      && (IsTerminal(g.members[id].status) ==> m.status == g.members[id].status)
      && (m.status == INVITED ==> g.members[id].status == INVITED)
    ensures Progresses(g, g')
  {
  }

  lemma OwnTransitionProgresses(g: Gov, user: Id, member: Id, decide: Member -> Result<Delta>, event: Id -> Event)
    requires DoOwnTransition(g, user, member, decide, event).Ok?
    requires !IsTerminal(g.members[member].status)
    requires decide(g.members[member]).value.status.Some? && decide(g.members[member]).value.status.value != INVITED
    ensures Progresses(g, DoOwnTransition(g, user, member, decide, event).value)
  {
    var g' := DoOwnTransition(g, user, member, decide, event).value;
    MemberProgresses(g, member, g'.members[member], g');
  }

  lemma ChangeRoleProgresses(g: Gov, actor: Id, member: Id, role: Role, expectedVersion: nat)
    requires DoChangeRole(g, actor, member, role, expectedVersion).Ok?
    ensures Progresses(g, DoChangeRole(g, actor, member, role, expectedVersion).value)
  {
    var g' := DoChangeRole(g, actor, member, role, expectedVersion).value;
    MemberProgresses(g, member, g'.members[member], g');
  }

  lemma NominateProgresses(g: Gov, actor: Id, profile: Id, nominee: Id)
    requires DoNominate(g, actor, profile, nominee).Ok?
    ensures Progresses(g, DoNominate(g, actor, profile, nominee).value)
  {
    var g' := DoNominate(g, actor, profile, nominee).value;
    MemberProgresses(g, nominee, g'.members[nominee], g');
  }

  lemma InviteProgresses(g: Gov, actor: Id, profile: Id, user: Id, role: Role, newId: Id, now: int)
    requires DoInvite(g, actor, profile, user, role, newId, now).Ok?
    ensures Progresses(g, DoInvite(g, actor, profile, user, role, newId, now).value)
  {
    var g' := DoInvite(g, actor, profile, user, role, newId, now).value;
    MemberProgresses(g, newId, g'.members[newId], g');
  }

  lemma TakeOwnershipProgresses(g: Gov, user: Id, profile: Id)
    requires Inv(g) && DoTakeOwnership(g, user, profile).Ok?
    ensures Progresses(g, DoTakeOwnership(g, user, profile).value)
  {
    var owner, nominee := TakeOwnershipEffect(g, user, profile);
    TransferProgresses(g, owner, nominee, profile, DoTakeOwnership(g, user, profile).value);
  }

  lemma TransferProgresses(g: Gov, owner: Id, nominee: Id, profile: Id, g': Gov)
    requires Transferred(g, owner, nominee, profile, g') && g.log <= g'.log
    ensures Progresses(g, g')
  {
    var ms := g.members[nominee := g.members[nominee].(role := OWNER, nominee := false)];
    assert MembersProgress(g.members, ms);
    assert MembersProgress(ms, g'.members);
  }

  lemma ProfileStepProgresses(g: Gov, c: Command)
    requires c.CreateProfile? || c.ArchiveProfile?
    ensures Progresses(g, Step(g, c))
  {
  }

  lemma StepProgresses(g: Gov, c: Command)
    requires Inv(g)
    ensures Progresses(g, Step(g, c))
  {
    hide Inv, DoCreateProfile, DoInvite, DoChangeRole, DoNominate, DoTakeOwnership, DoArchive, ExpireAll;
    if Exec(g, c).Ok? {
      match c
      case CreateProfile(_, _, _, _, _) => ProfileStepProgresses(g, c);
      case Invite(actor, profile, user, role, newId, now) => InviteProgresses(g, actor, profile, user, role, newId, now);
      case AcceptInvitation(user, member, now) => OwnTransitionProgresses(g, user, member, AcceptAt(now), AcceptedEvent(member));
      case DeclineInvitation(user, member) => OwnTransitionProgresses(g, user, member, Decline, DeclinedEvent(member));
      case LeaveProfile(user, member) => OwnTransitionProgresses(g, user, member, Leave, LeftEvent(member));
      case ChangeMemberRole(actor, member, role, version) => ChangeRoleProgresses(g, actor, member, role, version);
      case Nominate(actor, profile, nominee) => NominateProgresses(g, actor, profile, nominee);
      case TakeOwnership(user, profile) => TakeOwnershipProgresses(g, user, profile);
      case ArchiveProfile(_, _) => ProfileStepProgresses(g, c);
      case ExpireInvitations(due, now) => ExpireAllProgresses(g, due, now);
    }
  }

  /** LEFT, DECLINED, EXPIRED and an archived profile are final, whatever commands follow. */
  lemma {:induction false} EndsAreAbsorbing(g: Gov, cs: seq<Command>)
    requires Inv(g)
    ensures Progresses(g, Run(g, cs))
    decreases |cs|
  {
    if cs != [] {
      StepKeeps(g, cs[0]);
      StepProgresses(g, cs[0]);
      EndsAreAbsorbing(Step(g, cs[0]), cs[1..]);
    }
  }

  /** A user with any row in a profile, ended or not, can never be invited to it again. */
  lemma NeverReinvited(g: Gov, actor: Id, profile: Id, user: Id, role: Role, newId: Id, now: int)
    requires Inv(g) && (profile, user) in g.byPair
    ensures DoInvite(g, actor, profile, user, role, newId, now).Err?
  {
  }
}
