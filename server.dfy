/** The server's request handlers over its key-value store. Each store key
    is a field of `Store`; each route is a method that reads the fields it
    needs, changes them and answers a value or an error. The caller's
    identity, clock readings and fresh ids are parameters. */
module Server {
  import opened Common
  import opened Seqs
  import opened Types
  import opened Metrics
  import opened Entities
  import opened Orgs

  /** The body of `GET /analytics`. */
  datatype AnalyticsReport = AnalyticsReport(
    totalClients: nat,
    totalRetailers: nat,
    totalDistributions: nat,
    distributionCoverage: nat,
    clientsByStatus: seq<StatusCount>,
    history: seq<Snapshot>)

  /** The body of a successful `POST /organizations/switch`. */
  datatype Switched = Switched(currentOrgId: Id, role: Role)

  /** The global keys of the entity routes. */
  datatype EntityTables = EntityTables(
    clients: seq<Client>,
    retailers: seq<Retailer>,
    distributions: seq<Distribution>,
    activityLog: seq<ActivityEntry>,
    analyticsHistory: seq<Snapshot>)

  /** The per-organization and per-user keys. */
  datatype OrgTables = OrgTables(
    info: map<Id, Organization>,
    members: map<Id, seq<Member>>,
    invites: map<Id, seq<Invite>>,
    data: map<Id, OrgData>,
    profiles: map<Id, Profile>)

  /** The `clientsByStatus` loop: `clients.forEach` bumping one counter per
      client. */
  method TallyByStatus(cs: seq<Client>) returns (t: seq<StatusCount>)
    ensures t == Tally(cs)
  {
    t := [];
    var i := 0;
    while i < |cs|
      invariant 0 <= i <= |cs|
      invariant t == Tally(cs[..i])
    {
      assert cs[..i + 1][..i] == cs[..i];
      var s := cs[i].status;
      var k := StatusIndex(t, s);
      if k.Some? {
        t := t[k.value := StatusCount(s, t[k.value].count + 1)];
      } else {
        t := t + [StatusCount(s, 1)];
      }
      i := i + 1;
    }
    assert cs[..|cs|] == cs;
  }

  /** The active-distribution count, the coverage and the tally of one
      reading of the store: every tally value counts the clients with that
      status and the values add up to the clients. */
  method CurrentMetrics(cs: seq<Client>, rs: seq<Retailer>, ds: seq<Distribution>)
    returns (active: nat, coverage: nat, byStatus: seq<StatusCount>)
    ensures active == |ActiveDistributions(ds)|
    ensures coverage == Coverage(active, |cs| * |rs|)
    ensures |cs| * |rs| == 0 ==> coverage == 0
    ensures byStatus == Tally(cs) && Sum(byStatus) == |cs|
    ensures forall s :: Lookup(byStatus, s) == |ClientsWithStatus(cs, s)|
  {
    active := |ActiveDistributions(ds)|;
    coverage := Coverage(active, |cs| * |rs|);
    byStatus := TallyByStatus(cs);
    TallyCorrect(cs);
  }

  class Store {
    var clients: seq<Client>
    var retailers: seq<Retailer>
    var distributions: seq<Distribution>
    var activityLog: seq<ActivityEntry>
    var analyticsHistory: seq<Snapshot>
    var orgInfo: map<Id, Organization>
    var orgMembers: map<Id, seq<Member>>
    var orgInvites: map<Id, seq<Invite>>
    var orgData: map<Id, OrgData>
    var profiles: map<Id, Profile>

    /** What every route keeps: the activity log holds at most 100 entries,
        the history at most 90 with one per date, no pair has two
        distributions, and every organization has a member list and data. */
    ghost predicate Valid()
      reads this
    {
      && |activityLog| <= 100
      && |analyticsHistory| <= 90
      && PairsUnique(distributions)
      && DatesUnique(analyticsHistory)
      && orgInfo.Keys <= orgMembers.Keys
      && orgInfo.Keys <= orgData.Keys
    }

    ghost function Tables(): EntityTables
      reads this
    {
      EntityTables(clients, retailers, distributions, activityLog, analyticsHistory)
    }

    ghost function OrgState(): OrgTables
      reads this
    {
      OrgTables(orgInfo, orgMembers, orgInvites, orgData, profiles)
    }

    /** An empty store. */
    constructor ()
      ensures Valid()
      ensures Tables() == EntityTables([], [], [], [], [])
      ensures OrgState() == OrgTables(map[], map[], map[], map[], map[])
    {
      clients, retailers, distributions := [], [], [];
      activityLog, analyticsHistory := [], [];
      orgInfo, orgMembers, orgInvites, orgData, profiles := map[], map[], map[], map[], map[];
    }

    /** `kvStore.get('user:<id>:profile')`. */
    function ProfileOf(userId: Id): Option<Profile>
      reads this
    {
      if userId in profiles then Some(profiles[userId]) else None
    }

    /** `kvStore.get('org:<id>:members') || []`. */
    function MembersOf(orgId: Id): seq<Member>
      reads this
    {
      if orgId in orgMembers then orgMembers[orgId] else []
    }

    /** `kvStore.get('org:<id>:invites') || []`. */
    function InvitesOf(orgId: Id): seq<Invite>
      reads this
    {
      if orgId in orgInvites then orgInvites[orgId] else []
    }

    // ------------------------------------------------------ distributions

    /** `POST /distributions`: 400 without a clientId or retailerId;
        otherwise upsert the pair and log the request, newest first. */
    method PostDistribution(
      clientId: Field<Id>, retailerId: Field<Id>, status: Field<DistStatus>, notes: Field<string>,
      timestamp: string, activityId: Id)
      returns (res: Result<Distribution>)
      requires Valid()
      modifies this
      ensures Valid()
      ensures OrgState() == old(OrgState())
      ensures !Truthy(clientId) || !Truthy(retailerId) ==>
        res == Err(BadRequest, "clientId and retailerId are required") && Tables() == old(Tables())
      ensures Truthy(clientId) && Truthy(retailerId) ==>
        && res == Ok(UpdatedDistribution(clientId.value, retailerId.value, status, notes, timestamp))
        && distributions == ServerUpsert(old(distributions), res.value, timestamp)
        && activityLog == PushActivity(old(activityLog),
             ActivityEntry(activityId, "distribution_update", clientId.value, retailerId.value, status, notes, timestamp))
        && clients == old(clients) && retailers == old(retailers) && analyticsHistory == old(analyticsHistory)
    {
      if !Truthy(clientId) || !Truthy(retailerId) {
        return Err(BadRequest, "clientId and retailerId are required");
      }
      var u := UpdatedDistribution(clientId.value, retailerId.value, status, notes, timestamp);
      ServerUpsertSpec(distributions, u, timestamp);
      match PairIndex(distributions, u.clientId, u.retailerId) {
        case Some(i) => distributions := distributions[i := u];
        case None => distributions := distributions + [u.(createdAt := Some(timestamp))];
      }
      var log := [ActivityEntry(activityId, "distribution_update", u.clientId, u.retailerId, status, notes, timestamp)] + activityLog;
      if |log| > 100 {
        log := log[..|log| - 1];
      }
      activityLog := log;
      res := Ok(u);
    }

    // ------------------------------------------------------------ clients

    /** `POST /clients`: 400 without a name or status; otherwise append. */
    method PostClient(name: Field<string>, status: Field<ClientStatus>, statusDate: Field<string>, id: Id, now: string)
      returns (res: Result<Client>)
      requires Valid()
      modifies this
      ensures Valid()
      ensures OrgState() == old(OrgState())
      ensures !Truthy(name) || !status.Given? ==>
        res == Err(BadRequest, "name and status are required") && Tables() == old(Tables())
      ensures Truthy(name) && status.Given? ==>
        && res == Ok(NewClient(id, name.value, status.value, statusDate, now))
        && Tables() == old(Tables()).(clients := old(clients) + [res.value])
    {
      if !Truthy(name) || !status.Given? {
        return Err(BadRequest, "name and status are required");
      }
      var c := NewClient(id, name.value, status.value, statusDate, now);
      clients := clients + [c];
      res := Ok(c);
    }

    /** `PUT /clients/:id`: 404 for an unknown id; otherwise merge into the
        first client with the id, in place. */
    method PutClient(id: Id, name: Field<string>, status: Field<ClientStatus>, statusDate: Field<string>, now: string)
      returns (res: Result<Client>)
      requires Valid()
      modifies this
      ensures Valid()
      ensures OrgState() == old(OrgState())
      ensures res.Err? <==> forall j :: 0 <= j < |old(clients)| ==> old(clients)[j].id != id
      ensures res.Err? ==> res == Err(NotFound, "Client not found") && Tables() == old(Tables())
      ensures res.Ok? ==>
        var i := ClientIndex(old(clients), id).value;
        && res.value == MergeClient(old(clients)[i], name, status, statusDate, now)
        && Tables() == old(Tables()).(clients := old(clients)[i := res.value])
    {
      match ClientIndex(clients, id) {
        case None =>
          return Err(NotFound, "Client not found");
        case Some(i) =>
          var c := MergeClient(clients[i], name, status, statusDate, now);
          clients := clients[i := c];
          res := Ok(c);
      }
    }

    /** `DELETE /clients/:id`: 404 when no client has the id; otherwise
        drop the client and its distributions. */
    method DeleteClient(id: Id) returns (res: Result<Success>)
      requires Valid()
      modifies this
      ensures Valid()
      ensures OrgState() == old(OrgState())
      ensures res.Err? <==> forall j :: 0 <= j < |old(clients)| ==> old(clients)[j].id != id
      ensures res.Err? ==> res == Err(NotFound, "Client not found") && Tables() == old(Tables())
      ensures res.Ok? ==>
        Tables() == old(Tables()).(clients := ClientsWithoutId(old(clients), id),
                                   distributions := DistributionsWithoutClient(old(distributions), id))
    {
      var kept := ClientsWithoutId(clients, id);
      if |kept| == |clients| {
        return Err(NotFound, "Client not found");
      }
      clients := kept;
      var ds := DistributionsWithoutClient(distributions, id);
      SubsequenceKeepsPairsUnique(ds, distributions);
      distributions := ds;
      res := Ok(Success);
    }

    // ---------------------------------------------------------- retailers

    /** `POST /retailers`: 400 without a name, category or type; otherwise
        append a retailer whose id is the slug of its name and the
        clock. */
    method PostRetailer(name: Field<string>, category: Field<RetailerCategory>, retailerType: Field<string>,
                        nowMillis: nat, now: string)
      returns (res: Result<Retailer>)
      requires Valid()
      modifies this
      ensures Valid()
      ensures OrgState() == old(OrgState())
      ensures !Truthy(name) || !category.Given? || !Truthy(retailerType) ==>
        res == Err(BadRequest, "name, category, and type are required") && Tables() == old(Tables())
      ensures Truthy(name) && category.Given? && Truthy(retailerType) ==>
        && res == Ok(NewRetailer(ServerRetailerId(name.value, nowMillis), name.value, category.value, retailerType.value, now))
        && Tables() == old(Tables()).(retailers := old(retailers) + [res.value])
    {
      if !Truthy(name) || !category.Given? || !Truthy(retailerType) {
        return Err(BadRequest, "name, category, and type are required");
      }
      var x := NewRetailer(ServerRetailerId(name.value, nowMillis), name.value, category.value, retailerType.value, now);
      retailers := retailers + [x];
      res := Ok(x);
    }

    /** `PUT /retailers/:id`: 404 for an unknown id; otherwise merge into
        the first retailer with the id, in place. */
    method PutRetailer(
      id: Id, name: Field<string>, category: Field<RetailerCategory>, retailerType: Field<string>,
      contacts: Field<seq<Contact>>, lineReviewTiming: Field<string>, resetDates: Field<string>, notes: Field<string>,
      now: string)
      returns (res: Result<Retailer>)
      requires Valid()
      modifies this
      ensures Valid()
      ensures OrgState() == old(OrgState())
      ensures res.Err? <==> forall j :: 0 <= j < |old(retailers)| ==> old(retailers)[j].id != id
      ensures res.Err? ==> res == Err(NotFound, "Retailer not found") && Tables() == old(Tables())
      ensures res.Ok? ==>
        var i := RetailerIndex(old(retailers), id).value;
        && res.value == MergeRetailer(old(retailers)[i], name, category, retailerType, contacts, lineReviewTiming, resetDates, notes, now)
        && Tables() == old(Tables()).(retailers := old(retailers)[i := res.value])
    {
      match RetailerIndex(retailers, id) {
        case None =>
          return Err(NotFound, "Retailer not found");
        case Some(i) =>
          var x := MergeRetailer(retailers[i], name, category, retailerType, contacts, lineReviewTiming, resetDates, notes, now);
          retailers := retailers[i := x];
          res := Ok(x);
      }
    }

    /** `DELETE /retailers/:id`: 404 when no retailer has the id; otherwise
        drop the retailer and its distributions. */
    method DeleteRetailer(id: Id) returns (res: Result<Success>)
      requires Valid()
      modifies this
      ensures Valid()
      ensures OrgState() == old(OrgState())
      ensures res.Err? <==> forall j :: 0 <= j < |old(retailers)| ==> old(retailers)[j].id != id
      ensures res.Err? ==> res == Err(NotFound, "Retailer not found") && Tables() == old(Tables())
      ensures res.Ok? ==>
        Tables() == old(Tables()).(retailers := RetailersWithoutId(old(retailers), id),
                                   distributions := DistributionsWithoutRetailer(old(distributions), id))
    {
      var kept := RetailersWithoutId(retailers, id);
      if |kept| == |retailers| {
        return Err(NotFound, "Retailer not found");
      }
      retailers := kept;
      var ds := DistributionsWithoutRetailer(distributions, id);
      SubsequenceKeepsPairsUnique(ds, distributions);
      distributions := ds;
      res := Ok(Success);
    }

    /** `POST /clear-all-data`: empties the three entity lists; the activity
        log and the history stay. */
    method ClearAllData() returns (res: Success)
      requires Valid()
      modifies this
      ensures Valid()
      ensures OrgState() == old(OrgState())
      ensures Tables() == old(Tables()).(clients := [], retailers := [], distributions := [])
    {
      clients, retailers, distributions := [], [], [];
      res := Success;
    }

    // ---------------------------------------------------------- analytics

    /** `GET /analytics`: the current metrics and the 30 newest snapshots. */
    method GetAnalytics() returns (r: AnalyticsReport)
      ensures r.totalClients == |clients| && r.totalRetailers == |retailers|
      ensures r.totalDistributions == |ActiveDistributions(distributions)|
      ensures r.distributionCoverage == Coverage(r.totalDistributions, |clients| * |retailers|)
      ensures r.clientsByStatus == Tally(clients) && Sum(r.clientsByStatus) == |clients|
      ensures |r.history| == (if |analyticsHistory| < 30 then |analyticsHistory| else 30)
      ensures r.history == analyticsHistory[..|r.history|]
    {
      var active, coverage, byStatus := CurrentMetrics(clients, retailers, distributions);
      var n := if |analyticsHistory| < 30 then |analyticsHistory| else 30;
      r := AnalyticsReport(|clients|, |retailers|, active, coverage, byStatus, analyticsHistory[..n]);
    }

    /** `POST /analytics/snapshot`: compute today's metrics and record them
        as today's entry of the history. */
    method PostSnapshot(today: string) returns (snap: Snapshot)
      requires Valid()
      modifies this
      ensures Valid()
      ensures OrgState() == old(OrgState())
      ensures snap == SnapshotOf(today, clients, retailers, distributions)
      ensures Tables() == old(Tables()).(analyticsHistory := HistoryUpsert(old(analyticsHistory), snap))
      ensures exists k :: 0 <= k < |analyticsHistory| && analyticsHistory[k] == snap
    {
      var active, coverage, byStatus := CurrentMetrics(clients, retailers, distributions);
      snap := Snapshot(today, |clients|, |retailers|, active, byStatus, coverage);
      HistoryUpsertSpec(analyticsHistory, snap);
      var h := analyticsHistory;
      match DateIndex(h, today) {
        case Some(i) => h := h[i := snap];
        case None => h := [snap] + h;
      }
      if |h| > 90 {
        h := h[..90];
      }
      analyticsHistory := h;
    }

    // ------------------------------------------------------ organizations

    /** `GET /user/profile`: 401 without a caller; the stored profile, or a
        fresh one stored on first use. */
    method GetProfile(caller: Option<User>) returns (res: Result<Profile>)
      requires Valid()
      modifies this
      ensures Valid()
      ensures Tables() == old(Tables())
      ensures caller.None? ==> res == Err(Unauthorized, "Unauthorized") && OrgState() == old(OrgState())
      ensures caller.Some? && caller.value.id in old(profiles) ==>
        res == Ok(old(profiles)[caller.value.id]) && OrgState() == old(OrgState())
      ensures caller.Some? && caller.value.id !in old(profiles) ==>
        && res == Ok(DefaultProfile(caller.value))
        && OrgState() == old(OrgState()).(profiles := old(profiles)[caller.value.id := res.value])
    {
      if caller.None? {
        return Err(Unauthorized, "Unauthorized");
      }
      var u := caller.value;
      if u.id in profiles {
        return Ok(profiles[u.id]);
      }
      var p := DefaultProfile(u);
      profiles := profiles[u.id := p];
      res := Ok(p);
    }

    /** `POST /organizations`: 401 without a caller, 400 without a name;
        otherwise the organization, its one admin member, its empty data
        and the creator's profile entry. */
    method CreateOrganization(caller: Option<User>, name: Field<string>, orgId: Id, timestamp: string)
      returns (res: Result<OrgWithRole>)
      requires Valid()
      modifies this
      ensures Valid()
      ensures Tables() == old(Tables())
      ensures caller.None? ==> res == Err(Unauthorized, "Unauthorized") && OrgState() == old(OrgState())
      ensures caller.Some? && !Truthy(name) ==>
        res == Err(BadRequest, "Organization name is required") && OrgState() == old(OrgState())
      ensures caller.Some? && Truthy(name) ==>
        var u := caller.value;
        var org := Organization(orgId, name.value, timestamp, u.id);
        && res == Ok(OrgWithRole(org, Admin))
        && orgInfo == old(orgInfo)[orgId := org]
        && orgMembers == old(orgMembers)[orgId := [Member(u.id, u.email, u.name, Admin, timestamp)]]
        && orgData == old(orgData)[orgId := OrgData([], [], [], [])]
        && orgInvites == old(orgInvites)
        && profiles == old(profiles)[u.id := CreatorProfile(ProfileOr(old(ProfileOf(u.id)), u), orgId)]
        && ((forall m :: m in ProfileOr(old(ProfileOf(u.id)), u).organizations ==> m.orgId != orgId) ==>
              IsAdmin(ProfileOf(u.id), orgId))
    {
      if caller.None? {
        return Err(Unauthorized, "Unauthorized");
      }
      if !Truthy(name) {
        return Err(BadRequest, "Organization name is required");
      }
      var u := caller.value;
      var org := Organization(orgId, name.value, timestamp, u.id);
      orgInfo := orgInfo[orgId := org];
      orgMembers := orgMembers[orgId := [Member(u.id, u.email, u.name, Admin, timestamp)]];
      orgData := orgData[orgId := OrgData([], [], [], [])];
      var p := ProfileOr(ProfileOf(u.id), u);
      if forall m :: m in p.organizations ==> m.orgId != orgId {
        CreatorIsAdmin(p, orgId);
      }
      profiles := profiles[u.id := CreatorProfile(p, orgId)];
      res := Ok(OrgWithRole(org, Admin));
    }

    /** `GET /organizations`: the caller's memberships whose organization
        exists, each with its role, in the profile's order. */
    method ListOrganizations(caller: Option<User>) returns (res: Result<seq<OrgWithRole>>)
      ensures caller.None? ==> res == Err(Unauthorized, "Unauthorized")
      ensures caller.Some? && ProfileOf(caller.value.id).None? ==> res == Ok([])
      ensures caller.Some? && ProfileOf(caller.value.id).Some? ==>
        res == Ok(JoinOrgs(ProfileOf(caller.value.id).value.organizations, orgInfo))
    {
      if caller.None? {
        return Err(Unauthorized, "Unauthorized");
      }
      var p := ProfileOf(caller.value.id);
      if p.None? {
        return Ok([]);
      }
      var ms := p.value.organizations;
      var out: seq<OrgWithRole> := [];
      var i := 0;
      while i < |ms|
        invariant 0 <= i <= |ms|
        invariant out == JoinOrgs(ms[..i], orgInfo)
      {
        assert ms[..i + 1][..i] == ms[..i];
        var m := ms[i];
        if m.orgId in orgInfo {
          out := out + [OrgWithRole(orgInfo[m.orgId], m.role)];
        }
        i := i + 1;
      }
      assert ms[..|ms|] == ms;
      res := Ok(out);
    }

    /** `POST /organizations/switch`: 401 without a caller, 404 without a
        profile, 403 unless a member; otherwise the organization becomes
        current. */
    method SwitchOrganization(caller: Option<User>, orgId: Id) returns (res: Result<Switched>)
      requires Valid()
      modifies this
      ensures Valid()
      ensures Tables() == old(Tables())
      ensures res.Ok? <==> caller.Some? && IsMember(old(ProfileOf(caller.value.id)), orgId)
      ensures res.Err? ==> OrgState() == old(OrgState())
      ensures caller.None? ==> res == Err(Unauthorized, "Unauthorized")
      ensures caller.Some? && old(ProfileOf(caller.value.id)).None? ==> res == Err(NotFound, "Profile not found")
      ensures caller.Some? && old(ProfileOf(caller.value.id)).Some? && !IsMember(old(ProfileOf(caller.value.id)), orgId) ==>
        res == Err(Forbidden, "Not a member of this organization")
      ensures res.Ok? ==>
        var id := caller.value.id;
        && res.value == Switched(orgId, FindMembership(old(ProfileOf(id)), orgId).value.role)
        && OrgState() == old(OrgState()).(profiles := old(profiles)[id := SwitchProfile(old(profiles)[id], orgId)])
    {
      if caller.None? {
        return Err(Unauthorized, "Unauthorized");
      }
      var id := caller.value.id;
      var p := ProfileOf(id);
      if p.None? {
        return Err(NotFound, "Profile not found");
      }
      var m := FindMembership(p, orgId);
      if m.None? {
        return Err(Forbidden, "Not a member of this organization");
      }
      profiles := profiles[id := SwitchProfile(p.value, orgId)];
      res := Ok(Switched(orgId, m.value.role));
    }

    /** `GET /organizations/:orgId/members`: 403 unless the caller is a
        member. */
    method GetMembers(caller: Option<User>, orgId: Id) returns (res: Result<seq<Member>>)
      ensures caller.None? ==> res == Err(Unauthorized, "Unauthorized")
      ensures caller.Some? && !IsMember(ProfileOf(caller.value.id), orgId) ==>
        res == Err(Forbidden, "Not a member of this organization")
      ensures caller.Some? && IsMember(ProfileOf(caller.value.id), orgId) ==> res == Ok(MembersOf(orgId))
    {
      if caller.None? {
        return Err(Unauthorized, "Unauthorized");
      }
      if !IsMember(ProfileOf(caller.value.id), orgId) {
        return Err(Forbidden, "Not a member of this organization");
      }
      res := Ok(MembersOf(orgId));
    }

    /** `POST /organizations/:orgId/invite`: 400 without an e-mail or role
        or for an unknown role, 403 unless an admin; otherwise append a
        pending invite for the lower-cased e-mail. */
    method InviteMember(caller: Option<User>, orgId: Id, email: Field<string>, role: Field<string>,
                        inviteId: Id, timestamp: string)
      returns (res: Result<Invite>)
      requires Valid()
      modifies this
      ensures Valid()
      ensures Tables() == old(Tables())
      ensures res.Ok? <==>
        caller.Some? && Truthy(email) && Truthy(role) && ParseRole(role.value).Some? &&
        IsAdmin(old(ProfileOf(caller.value.id)), orgId)
      ensures res.Err? ==> OrgState() == old(OrgState())
      ensures caller.None? ==> res == Err(Unauthorized, "Unauthorized")
      ensures caller.Some? && (!Truthy(email) || !Truthy(role)) ==> res == Err(BadRequest, "Email and role are required")
      ensures caller.Some? && Truthy(email) && Truthy(role) && ParseRole(role.value).None? ==>
        res == Err(BadRequest, "Invalid role")
      ensures (caller.Some? && Truthy(email) && Truthy(role) && ParseRole(role.value).Some? &&
               !IsAdmin(old(ProfileOf(caller.value.id)), orgId)) ==> res == Err(Forbidden, "Only admins can invite users")
      ensures res.Ok? ==>
        && res.value == Invite(inviteId, orgId, Lower(email.value), ParseRole(role.value).value, Pending, timestamp)
        && OrgState() == old(OrgState()).(invites := old(orgInvites)[orgId := old(InvitesOf(orgId)) + [res.value]])
    {
      if caller.None? {
        return Err(Unauthorized, "Unauthorized");
      }
      if !Truthy(email) || !Truthy(role) {
        return Err(BadRequest, "Email and role are required");
      }
      var r := ParseRole(role.value);
      if r.None? {
        return Err(BadRequest, "Invalid role");
      }
      if !IsAdmin(ProfileOf(caller.value.id), orgId) {
        return Err(Forbidden, "Only admins can invite users");
      }
      var invite := Invite(inviteId, orgId, Lower(email.value), r.value, Pending, timestamp);
      orgInvites := orgInvites[orgId := InvitesOf(orgId) + [invite]];
      res := Ok(invite);
    }

    /** `POST /organizations/accept-invite`: 400 unless the first invite
        with this id and the caller's lower-cased e-mail is pending;
        otherwise mark it accepted, add the caller as a member with the
        invite's role and record the membership in their profile. */
    method AcceptInvite(caller: Option<User>, inviteId: Id, orgId: Id, timestamp: string)
      returns (res: Result<Role>)
      requires Valid()
      modifies this
      ensures Valid()
      ensures Tables() == old(Tables())
      ensures res.Ok? <==> caller.Some? && Acceptable(old(InvitesOf(orgId)), inviteId, Lower(caller.value.email))
      ensures res.Err? ==> OrgState() == old(OrgState())
      ensures caller.None? ==> res == Err(Unauthorized, "Unauthorized")
      ensures caller.Some? && !Acceptable(old(InvitesOf(orgId)), inviteId, Lower(caller.value.email)) ==>
        res == Err(BadRequest, "Invalid or expired invite")
      ensures res.Ok? ==>
        var u := caller.value;
        var i := InviteIndex(old(InvitesOf(orgId)), inviteId, Lower(u.email)).value;
        && res.value == old(InvitesOf(orgId))[i].role
        && orgInvites == old(orgInvites)[orgId := MarkAccepted(old(InvitesOf(orgId)), i)]
        && orgMembers == old(orgMembers)[orgId := old(MembersOf(orgId)) + [Member(u.id, u.email, u.name, res.value, timestamp)]]
        && profiles == old(profiles)[u.id := AcceptIntoProfile(ProfileOr(old(ProfileOf(u.id)), u), orgId, res.value)]
        && orgInfo == old(orgInfo) && orgData == old(orgData)
        && IsMember(ProfileOf(u.id), orgId)
        && !Acceptable(InvitesOf(orgId), inviteId, Lower(u.email))
    {
      if caller.None? {
        return Err(Unauthorized, "Unauthorized");
      }
      var u := caller.value;
      var invites := InvitesOf(orgId);
      if !Acceptable(invites, inviteId, Lower(u.email)) {
        return Err(BadRequest, "Invalid or expired invite");
      }
      var role := Admit(u, orgId, inviteId, timestamp);
      res := Ok(role);
    }

    /** The writes of an accepted invite. */
    method Admit(u: User, orgId: Id, inviteId: Id, timestamp: string) returns (role: Role)
      requires Valid()
      requires Acceptable(InvitesOf(orgId), inviteId, Lower(u.email))
      modifies this
      ensures Valid()
      ensures Tables() == old(Tables())
      ensures var i := InviteIndex(old(InvitesOf(orgId)), inviteId, Lower(u.email)).value;
        && role == old(InvitesOf(orgId))[i].role
        && orgInvites == old(orgInvites)[orgId := MarkAccepted(old(InvitesOf(orgId)), i)]
        && orgMembers == old(orgMembers)[orgId := old(MembersOf(orgId)) + [Member(u.id, u.email, u.name, role, timestamp)]]
        && profiles == old(profiles)[u.id := AcceptIntoProfile(ProfileOr(old(ProfileOf(u.id)), u), orgId, role)]
        && orgInfo == old(orgInfo) && orgData == old(orgData)
      ensures IsMember(ProfileOf(u.id), orgId)
      ensures !Acceptable(InvitesOf(orgId), inviteId, Lower(u.email))
    {
      var invites := InvitesOf(orgId);
      var i := InviteIndex(invites, inviteId, Lower(u.email)).value;
      role := invites[i].role;
      AcceptOnce(invites, inviteId, Lower(u.email));
      orgInvites := orgInvites[orgId := MarkAccepted(invites, i)];
      orgMembers := orgMembers[orgId := MembersOf(orgId) + [Member(u.id, u.email, u.name, role, timestamp)]];
      var p := ProfileOr(ProfileOf(u.id), u);
      AcceptMakesMember(p, orgId, role);
      profiles := profiles[u.id := AcceptIntoProfile(p, orgId, role)];
      assert InvitesOf(orgId) == MarkAccepted(invites, i);
      assert ProfileOf(u.id) == Some(AcceptIntoProfile(p, orgId, role));
    }

    /** `PUT /organizations/:orgId/members/:userId`: 400 for an unknown
        role, 403 unless an admin, 404 for a user not in the member list;
        otherwise the member's role, and the target's profile entry when
        there is one. */
    method UpdateMemberRole(caller: Option<User>, orgId: Id, targetUserId: Id, role: Field<string>)
      returns (res: Result<Success>)
      requires Valid()
      modifies this
      ensures Valid()
      ensures Tables() == old(Tables())
      ensures res.Err? ==> OrgState() == old(OrgState())
      ensures caller.None? ==> res == Err(Unauthorized, "Unauthorized")
      ensures caller.Some? && (!role.Given? || ParseRole(role.value).None?) ==> res == Err(BadRequest, "Invalid role")
      ensures caller.Some? && role.Given? && ParseRole(role.value).Some? && !IsAdmin(old(ProfileOf(caller.value.id)), orgId) ==>
        res == Err(Forbidden, "Only admins can update roles")
      ensures (caller.Some? && role.Given? && ParseRole(role.value).Some? && IsAdmin(old(ProfileOf(caller.value.id)), orgId) &&
               MemberIndex(old(MembersOf(orgId)), targetUserId).None?) ==> res == Err(NotFound, "Member not found")
      ensures res.Ok? <==>
        caller.Some? && role.Given? && ParseRole(role.value).Some? && IsAdmin(old(ProfileOf(caller.value.id)), orgId) &&
        MemberIndex(old(MembersOf(orgId)), targetUserId).Some?
      ensures res.Ok? ==>
        var r := ParseRole(role.value).value;
        var i := MemberIndex(old(MembersOf(orgId)), targetUserId).value;
        && orgMembers == old(orgMembers)[orgId := SetMemberRole(old(MembersOf(orgId)), i, r)]
        && profiles == (if targetUserId in old(profiles)
                        then old(profiles)[targetUserId := SetProfileRole(old(profiles)[targetUserId], orgId, r)]
                        else old(profiles))
        && orgInfo == old(orgInfo) && orgInvites == old(orgInvites) && orgData == old(orgData)
    {
      if caller.None? {
        return Err(Unauthorized, "Unauthorized");
      }
      if !role.Given? || ParseRole(role.value).None? {
        return Err(BadRequest, "Invalid role");
      }
      var r := ParseRole(role.value).value;
      if !IsAdmin(ProfileOf(caller.value.id), orgId) {
        return Err(Forbidden, "Only admins can update roles");
      }
      var members := MembersOf(orgId);
      var i := MemberIndex(members, targetUserId);
      if i.None? {
        return Err(NotFound, "Member not found");
      }
      orgMembers := orgMembers[orgId := SetMemberRole(members, i.value, r)];
      if targetUserId in profiles {
        profiles := profiles[targetUserId := SetProfileRole(profiles[targetUserId], orgId, r)];
      }
      res := Ok(Success);
    }

    /** `DELETE /organizations/:orgId/members/:userId`: 403 unless an admin,
        400 for a self removal the guard refuses; otherwise drop the user
        from the member list and from their profile. */
    method RemoveMember(caller: Option<User>, orgId: Id, targetUserId: Id) returns (res: Result<Success>)
      requires Valid()
      modifies this
      ensures Valid()
      ensures Tables() == old(Tables())
      ensures res.Err? ==> OrgState() == old(OrgState())
      ensures caller.None? ==> res == Err(Unauthorized, "Unauthorized")
      ensures caller.Some? && !IsAdmin(old(ProfileOf(caller.value.id)), orgId) ==>
        res == Err(Forbidden, "Only admins can remove members")
      ensures (caller.Some? && IsAdmin(old(ProfileOf(caller.value.id)), orgId) &&
               SelfRemovalBlocked(old(MembersOf(orgId)), caller.value.id, targetUserId)) ==>
        res == Err(BadRequest, "Cannot remove the only admin")
      ensures res.Ok? <==>
        caller.Some? && IsAdmin(old(ProfileOf(caller.value.id)), orgId) &&
        !SelfRemovalBlocked(old(MembersOf(orgId)), caller.value.id, targetUserId)
      ensures res.Ok? ==>
        && orgMembers == old(orgMembers)[orgId := WithoutMember(old(MembersOf(orgId)), targetUserId)]
        && profiles == (if targetUserId in old(profiles)
                        then old(profiles)[targetUserId := LeaveProfile(old(profiles)[targetUserId], orgId)]
                        else old(profiles))
        && orgInfo == old(orgInfo) && orgInvites == old(orgInvites) && orgData == old(orgData)
        && (targetUserId == caller.value.id ==> exists m :: m in MembersOf(orgId) && m.role == Admin)
    {
      if caller.None? {
        return Err(Unauthorized, "Unauthorized");
      }
      var id := caller.value.id;
      if !IsAdmin(ProfileOf(id), orgId) {
        return Err(Forbidden, "Only admins can remove members");
      }
      var members := MembersOf(orgId);
      if SelfRemovalBlocked(members, id, targetUserId) {
        return Err(BadRequest, "Cannot remove the only admin");
      }
      SelfRemovalKeepsAnAdmin(members, id, targetUserId);
      orgMembers := orgMembers[orgId := WithoutMember(members, targetUserId)];
      if targetUserId in profiles {
        profiles := profiles[targetUserId := LeaveProfile(profiles[targetUserId], orgId)];
      }
      res := Ok(Success);
    }
  }
}
