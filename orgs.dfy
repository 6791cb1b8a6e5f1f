/** The bookkeeping behind the organization routes: a user's profile and
    its memberships, the invite list, the member list and its admins. */
module Orgs {
  import opened Common
  import opened Seqs
  import opened Types

  // ------------------------------------------------------------- profiles

  /** The profile made for a user who has none. */
  function DefaultProfile(u: User): Profile
  {
    Profile(u.id, u.email, u.name, None, [])
  }

  /** `await kvStore.get(profileKey) || { ...default }`. */
  function ProfileOr(p: Option<Profile>, u: User): (r: Profile)
    ensures p.Some? ==> r == p.value
    ensures p.None? ==> r.userId == u.id && r.currentOrgId.None? && r.organizations == []
  {
    if p.Some? then p.value else DefaultProfile(u)
  }

  /** `organizations.findIndex(o => o.orgId === orgId)`. */
  function MembershipIndex(ms: seq<Membership>, orgId: Id): (r: Option<nat>)
    ensures r.Some? ==> r.value < |ms| && ms[r.value].orgId == orgId
    ensures r.Some? ==> forall j :: 0 <= j < r.value ==> ms[j].orgId != orgId
    ensures r.None? <==> forall j :: 0 <= j < |ms| ==> ms[j].orgId != orgId
  {
    FirstIndex(ms, (m: Membership) => m.orgId == orgId)
  }

  lemma MembershipIndexIs(ms: seq<Membership>, orgId: Id, i: nat)
    requires i < |ms| && ms[i].orgId == orgId
    requires forall j :: 0 <= j < i ==> ms[j].orgId != orgId
    ensures MembershipIndex(ms, orgId) == Some(i)
  {
  }

  /** `profile?.organizations.find(o => o.orgId === orgId)`: the first
      membership of the organization, if there is a profile and one. */
  function FindMembership(p: Option<Profile>, orgId: Id): (r: Option<Membership>)
    ensures r.Some? ==> p.Some? && r.value in p.value.organizations && r.value.orgId == orgId
    ensures r.None? <==> p.None? || forall m :: m in p.value.organizations ==> m.orgId != orgId
  {
    if p.None? then None
    else match MembershipIndex(p.value.organizations, orgId)
      case Some(i) => Some(p.value.organizations[i])
      case None => None
  }

  /** The membership test of switching and of listing members. */
  predicate IsMember(p: Option<Profile>, orgId: Id)
  {
    FindMembership(p, orgId).Some?
  }

  /** The admin test of invites, role changes and removals: the first
      membership of the organization has role admin. */
  predicate IsAdmin(p: Option<Profile>, orgId: Id)
  {
    FindMembership(p, orgId).Some? && FindMembership(p, orgId).value.role == Admin
  }

  /** A user is a member exactly when one of their memberships names the
      organization, and an admin only if they are a member. */
  lemma MembershipTests(p: Profile, orgId: Id)
    ensures IsMember(Some(p), orgId) <==> exists i :: 0 <= i < |p.organizations| && p.organizations[i].orgId == orgId
    ensures IsAdmin(Some(p), orgId) ==> IsMember(Some(p), orgId)
    ensures !IsMember(None, orgId) && !IsAdmin(None, orgId)
  {
    if exists i :: 0 <= i < |p.organizations| && p.organizations[i].orgId == orgId {
      var i :| 0 <= i < |p.organizations| && p.organizations[i].orgId == orgId;
      assert p.organizations[i] in p.organizations;
    }
  }

  /** The creator's profile after `POST /organizations`. */
  function CreatorProfile(p: Profile, orgId: Id): (r: Profile)
    ensures r.currentOrgId == Some(orgId)
    ensures r.organizations == p.organizations + [Membership(orgId, Admin)]
    ensures r.userId == p.userId && r.email == p.email && r.name == p.name
  {
    p.(organizations := p.organizations + [Membership(orgId, Admin)], currentOrgId := Some(orgId))
  }

  /** Creating a new organization makes the creator its admin, and it is
      their current organization. */
  lemma CreatorIsAdmin(p: Profile, orgId: Id)
    requires forall m :: m in p.organizations ==> m.orgId != orgId
    ensures IsAdmin(Some(CreatorProfile(p, orgId)), orgId)
    ensures CreatorProfile(p, orgId).currentOrgId == Some(orgId)
  {
    var ms := CreatorProfile(p, orgId).organizations;
    assert forall j :: 0 <= j < |p.organizations| ==> ms[j] == p.organizations[j] && ms[j] in p.organizations;
    MembershipIndexIs(ms, orgId, |p.organizations|);
  }

  /** The profile after accepting an invite: one more membership, and the
      organization becomes current only when none was. */
  function AcceptIntoProfile(p: Profile, orgId: Id, role: Role): (r: Profile)
    ensures r.organizations == p.organizations + [Membership(orgId, role)]
    ensures FalsyId(p.currentOrgId) ==> r.currentOrgId == Some(orgId)
    ensures !FalsyId(p.currentOrgId) ==> r.currentOrgId == p.currentOrgId
    ensures r.userId == p.userId && r.email == p.email && r.name == p.name
  {
    p.(organizations := p.organizations + [Membership(orgId, role)],
       currentOrgId := if FalsyId(p.currentOrgId) then Some(orgId) else p.currentOrgId)
  }

  /** After accepting, the user is a member of the organization. */
  lemma AcceptMakesMember(p: Profile, orgId: Id, role: Role)
    ensures IsMember(Some(AcceptIntoProfile(p, orgId, role)), orgId)
  {
    var ms := AcceptIntoProfile(p, orgId, role).organizations;
    assert ms[|ms| - 1] in ms;
  }

  /** `organizations.filter(o => o.orgId !== orgId)`. */
  function MembershipsWithout(ms: seq<Membership>, orgId: Id): (r: seq<Membership>)
    ensures forall m :: m in r <==> m in ms && m.orgId != orgId
    ensures IsSubsequence(r, ms)
  {
    var keep := (m: Membership) => m.orgId != orgId;
    FilterIsSubsequence(ms, keep);
    Filter(ms, keep)
  }

  /** A removed member's profile: no membership of the organization is
      left; if it was current, the first remaining organization (or none)
      becomes current. */
  function LeaveProfile(p: Profile, orgId: Id): (r: Profile)
    ensures r.organizations == MembershipsWithout(p.organizations, orgId)
    ensures p.currentOrgId != Some(orgId) ==> r.currentOrgId == p.currentOrgId
    ensures p.currentOrgId == Some(orgId) && |r.organizations| > 0 && r.organizations[0].orgId != "" ==>
              r.currentOrgId == Some(r.organizations[0].orgId)
    ensures p.currentOrgId == Some(orgId) && (|r.organizations| == 0 || r.organizations[0].orgId == "") ==>
              r.currentOrgId == None
    ensures r.userId == p.userId && r.email == p.email && r.name == p.name
  {
    var rest := MembershipsWithout(p.organizations, orgId);
    var current :=
      if p.currentOrgId != Some(orgId) then p.currentOrgId
      else if |rest| > 0 && rest[0].orgId != "" then Some(rest[0].orgId)
      else None;
    p.(organizations := rest, currentOrgId := current)
  }

  /** Leaving an organization ends the membership, and the organization is
      no longer the current one. */
  lemma LeaveEndsMembership(p: Profile, orgId: Id)
    ensures !IsMember(Some(LeaveProfile(p, orgId)), orgId)
    ensures LeaveProfile(p, orgId).currentOrgId != Some(orgId)
  {
    var r := LeaveProfile(p, orgId);
    if p.currentOrgId == Some(orgId) && |r.organizations| > 0 {
      assert r.organizations[0] in r.organizations;
    }
  }

  /** Switching makes a membership's organization current and changes
      nothing else. */
  function SwitchProfile(p: Profile, orgId: Id): (r: Profile)
    ensures r.currentOrgId == Some(orgId)
    ensures r.organizations == p.organizations
    ensures r.userId == p.userId && r.email == p.email && r.name == p.name
  {
    p.(currentOrgId := Some(orgId))
  }

  // -------------------------------------------------------------- invites

  /** `invites.find(i => i.id === inviteId && i.email === email)`, as an
      index. */
  function InviteIndex(invites: seq<Invite>, inviteId: Id, email: string): (r: Option<nat>)
    ensures r.Some? ==> r.value < |invites| && invites[r.value].id == inviteId && invites[r.value].email == email
    ensures r.Some? ==> forall j :: 0 <= j < r.value ==> !(invites[j].id == inviteId && invites[j].email == email)
    ensures r.None? <==> forall j :: 0 <= j < |invites| ==> !(invites[j].id == inviteId && invites[j].email == email)
  {
    FirstIndex(invites, (x: Invite) => x.id == inviteId && x.email == email)
  }

  /** The accept route's test: the first invite with this id and e-mail
      exists and is pending. */
  predicate Acceptable(invites: seq<Invite>, inviteId: Id, email: string)
  {
    var i := InviteIndex(invites, inviteId, email);
    i.Some? && invites[i.value].status == Pending
  }

  /** `invite.status = 'accepted'` on the invite at index `i`. */
  function MarkAccepted(invites: seq<Invite>, i: nat): (r: seq<Invite>)
    requires i < |invites|
    ensures |r| == |invites| && r[i].status == Accepted
    ensures r[i] == invites[i].(status := Accepted)
    ensures forall j :: 0 <= j < |r| && j != i ==> r[j] == invites[j]
  {
    invites[i := invites[i].(status := Accepted)]
  }

  /** An invite can be accepted once: after it is marked accepted the same
      id and e-mail find it again, no longer pending. */
  lemma AcceptOnce(invites: seq<Invite>, inviteId: Id, email: string)
    requires Acceptable(invites, inviteId, email)
    ensures var i := InviteIndex(invites, inviteId, email).value;
      !Acceptable(MarkAccepted(invites, i), inviteId, email)
  {
    var i := InviteIndex(invites, inviteId, email).value;
    var r := MarkAccepted(invites, i);
    assert InviteIndex(r, inviteId, email) == Some(i) by {
      assert forall j :: 0 <= j < i ==> r[j] == invites[j];
    }
  }

  // -------------------------------------------------------------- members

  /** `members.findIndex(m => m.userId === userId)`. */
  function MemberIndex(ms: seq<Member>, userId: Id): (r: Option<nat>)
    ensures r.Some? ==> r.value < |ms| && ms[r.value].userId == userId
    ensures r.Some? ==> forall j :: 0 <= j < r.value ==> ms[j].userId != userId
    ensures r.None? <==> forall j :: 0 <= j < |ms| ==> ms[j].userId != userId
  {
    FirstIndex(ms, (m: Member) => m.userId == userId)
  }

  /** `members[i].role = role`. */
  function SetMemberRole(ms: seq<Member>, i: nat, role: Role): (r: seq<Member>)
    requires i < |ms|
    ensures |r| == |ms| && r[i] == ms[i].(role := role)
    ensures forall j :: 0 <= j < |r| && j != i ==> r[j] == ms[j]
  {
    ms[i := ms[i].(role := role)]
  }

  /** The target's profile after a role change: the first membership of the
      organization gets the role; nothing changes without one. */
  function SetProfileRole(p: Profile, orgId: Id, role: Role): (r: Profile)
    ensures |r.organizations| == |p.organizations|
    ensures MembershipIndex(p.organizations, orgId).None? ==> r == p
    ensures MembershipIndex(p.organizations, orgId).Some? ==>
      var i := MembershipIndex(p.organizations, orgId).value;
      r == p.(organizations := p.organizations[i := Membership(orgId, role)])
  {
    match MembershipIndex(p.organizations, orgId)
    case Some(i) => p.(organizations := p.organizations[i := p.organizations[i].(role := role)])
    case None => p
  }

  /** After a role change with a membership present, the admin test reads
      the new role. */
  lemma SetProfileRoleTakesEffect(p: Profile, orgId: Id, role: Role)
    requires IsMember(Some(p), orgId)
    ensures FindMembership(Some(SetProfileRole(p, orgId, role)), orgId) == Some(Membership(orgId, role))
  {
    var i := MembershipIndex(p.organizations, orgId).value;
    var ms := SetProfileRole(p, orgId, role).organizations;
    assert forall j :: 0 <= j < i ==> ms[j] == p.organizations[j];
    MembershipIndexIs(ms, orgId, i);
  }

  /** `members.filter(m => m.role === 'admin')`. */
  function Admins(ms: seq<Member>): (r: seq<Member>)
    ensures forall m :: m in r <==> m in ms && m.role == Admin
    ensures |r| <= |ms|
  {
    Filter(ms, (m: Member) => m.role == Admin)
  }

  function AdminCount(ms: seq<Member>): nat
  {
    |Admins(ms)|
  }

  /** `members.filter(m => m.userId !== userId)`. */
  function WithoutMember(ms: seq<Member>, userId: Id): (r: seq<Member>)
    ensures forall m :: m in r <==> m in ms && m.userId != userId
    ensures IsSubsequence(r, ms)
  {
    var keep := (m: Member) => m.userId != userId;
    FilterIsSubsequence(ms, keep);
    Filter(ms, keep)
  }

  /** The removal guard as the route writes it: removing yourself is
      refused when the member list has at most one admin entry. It counts
      entries, not users. */
  predicate SelfRemovalBlockedAsWritten(ms: seq<Member>, actorId: Id, targetId: Id)
  {
    targetId == actorId && AdminCount(ms) <= 1
  }

  /** Accepting an admin invite to one's own e-mail gives the only admin
      two admin entries; the written guard then lets them remove
      themselves, and the organization is left without an admin. */
  lemma SelfRemovalGuardCountsEntries()
    ensures var u := Member("u", "u@example.com", "U", Admin, "t");
      && !SelfRemovalBlockedAsWritten([u, u], "u", "u")
      && AdminCount(WithoutMember([u, u], "u")) == 0
  {
    var u := Member("u", "u@example.com", "U", Admin, "t");
    assert u in Admins([u, u]);
    assert u in [u, u][1..];
    assert Admins([u, u]) == [u, u];
    assert WithoutMember([u, u], "u") == [];
  }

  /** The guard as intended: besides the written test, refuse a self
      removal that would leave no admin entry at all. */
  predicate SelfRemovalBlocked(ms: seq<Member>, actorId: Id, targetId: Id)
  {
    SelfRemovalBlockedAsWritten(ms, actorId, targetId) ||
    (targetId == actorId && AdminCount(WithoutMember(ms, targetId)) == 0)
  }

  /** The corrected guard refuses everything the written one refuses, and a
      self removal it lets through leaves at least one admin. */
  lemma SelfRemovalKeepsAnAdmin(ms: seq<Member>, actorId: Id, targetId: Id)
    ensures SelfRemovalBlockedAsWritten(ms, actorId, targetId) ==> SelfRemovalBlocked(ms, actorId, targetId)
    ensures targetId == actorId && !SelfRemovalBlocked(ms, actorId, targetId) ==>
      exists m :: m in WithoutMember(ms, targetId) && m.role == Admin && m.userId != actorId
  {
    if targetId == actorId && !SelfRemovalBlocked(ms, actorId, targetId) {
      var a := Admins(WithoutMember(ms, targetId));
      assert a[0] in a;
    }
  }

  // --------------------------------------------------------- organizations

  /** The `GET /organizations` list: for each membership in order whose
      organization exists, the organization with the membership's role. */
  function JoinOrgs(ms: seq<Membership>, info: map<Id, Organization>): seq<OrgWithRole>
    decreases |ms|
  {
    if |ms| == 0 then []
    else
      var rest := JoinOrgs(ms[..|ms| - 1], info);
      var m := ms[|ms| - 1];
      if m.orgId in info then rest + [OrgWithRole(info[m.orgId], m.role)] else rest
  }

  /** Every listed entry comes from a membership whose organization exists,
      every such membership is listed, and the list is no longer than the
      memberships. */
  lemma {:induction false} JoinOrgsSpec(ms: seq<Membership>, info: map<Id, Organization>)
    ensures |JoinOrgs(ms, info)| <= |ms|
    ensures forall e :: e in JoinOrgs(ms, info) ==>
      exists m :: m in ms && m.orgId in info && e == OrgWithRole(info[m.orgId], m.role)
    ensures forall m :: m in ms && m.orgId in info ==> OrgWithRole(info[m.orgId], m.role) in JoinOrgs(ms, info)
    decreases |ms|
  {
    if |ms| > 0 {
      var init := ms[..|ms| - 1];
      JoinOrgsSpec(init, info);
      assert ms == init + [ms[|ms| - 1]];
      assert forall m :: m in init ==> m in ms;
    }
  }
}
