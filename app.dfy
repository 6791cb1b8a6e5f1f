/** The offline branches of the application's handlers: each computes the
    next client, retailer or distribution list from the previous one, with
    no server involved. The client list's search-and-status filter is here
    too. */
module LocalMode {
  import opened Common
  import opened Seqs
  import opened Types
  import opened Entities

  /** The three lists the application holds. */
  datatype LocalData = LocalData(clients: seq<Client>, retailers: seq<Retailer>, distributions: seq<Distribution>)

  // -------------------------------------------------------- distributions

  /** `handleDistributionUpdate` offline: every record of the pair gets the
      status and notes; without one, a bare record is appended. */
  function LocalUpsert(ds: seq<Distribution>, clientId: Id, retailerId: Id, status: DistStatus, notes: string): seq<Distribution>
  {
    if PairIndex(ds, clientId, retailerId).Some? then
      seq(|ds|, i requires 0 <= i < |ds| =>
        if HasPair(ds[i], clientId, retailerId) then ds[i].(status := status, notes := notes) else ds[i])
    else
      ds + [Distribution(clientId, retailerId, status, notes, None, None)]
  }

  /** With the pair present the list keeps its length, every record of the
      pair takes the status and notes and keeps its other fields, and the
      rest is untouched; without it exactly one record is appended. Either
      way the pair is then present with the new status and notes. */
  lemma LocalUpsertSpec(ds: seq<Distribution>, clientId: Id, retailerId: Id, status: DistStatus, notes: string)
    ensures var r := LocalUpsert(ds, clientId, retailerId, status, notes);
      && ((exists i :: 0 <= i < |ds| && HasPair(ds[i], clientId, retailerId)) ==>
            && |r| == |ds|
            && (forall i :: 0 <= i < |ds| && HasPair(ds[i], clientId, retailerId) ==> r[i] == ds[i].(status := status, notes := notes))
            && (forall i :: 0 <= i < |ds| && !HasPair(ds[i], clientId, retailerId) ==> r[i] == ds[i]))
      && ((forall i :: 0 <= i < |ds| ==> !HasPair(ds[i], clientId, retailerId)) ==>
            r == ds + [Distribution(clientId, retailerId, status, notes, None, None)])
      && (exists k :: 0 <= k < |r| && HasPair(r[k], clientId, retailerId))
      && (forall k :: 0 <= k < |r| && HasPair(r[k], clientId, retailerId) ==> r[k].status == status && r[k].notes == notes)
  {
    var r := LocalUpsert(ds, clientId, retailerId, status, notes);
    match PairIndex(ds, clientId, retailerId)
    case Some(i) => assert HasPair(r[i], clientId, retailerId);
    case None => assert HasPair(r[|ds|], clientId, retailerId);
  }

  /** Setting the same status and notes twice is setting them once. */
  lemma LocalUpsertIdempotent(ds: seq<Distribution>, clientId: Id, retailerId: Id, status: DistStatus, notes: string)
    ensures LocalUpsert(LocalUpsert(ds, clientId, retailerId, status, notes), clientId, retailerId, status, notes)
         == LocalUpsert(ds, clientId, retailerId, status, notes)
  {
    var r := LocalUpsert(ds, clientId, retailerId, status, notes);
    LocalUpsertSpec(ds, clientId, retailerId, status, notes);
    var k :| 0 <= k < |r| && HasPair(r[k], clientId, retailerId);
    assert PairIndex(r, clientId, retailerId).Some?;
    var rr := LocalUpsert(r, clientId, retailerId, status, notes);
    assert |rr| == |r|;
    forall j | 0 <= j < |r| ensures rr[j] == r[j] {
      if HasPair(r[j], clientId, retailerId) {
        assert r[j].status == status && r[j].notes == notes;
      }
    }
  }

  /** On a list with one record per pair, the offline upsert and the
      server's leave the same statuses and notes at the same places. */
  lemma LocalUpsertAgreesWithServer(ds: seq<Distribution>, clientId: Id, retailerId: Id, status: DistStatus, notes: string, timestamp: string)
    requires PairsUnique(ds) && clientId != "" && retailerId != ""
    ensures var l := LocalUpsert(ds, clientId, retailerId, status, notes);
      var s := ServerUpsert(ds, UpdatedDistribution(clientId, retailerId, Given(status), Given(notes), timestamp), timestamp);
      && |l| == |s|
      && forall k :: 0 <= k < |l| ==>
           l[k].clientId == s[k].clientId && l[k].retailerId == s[k].retailerId &&
           l[k].status == s[k].status && l[k].notes == s[k].notes
  {
    var u := UpdatedDistribution(clientId, retailerId, Given(status), Given(notes), timestamp);
    ServerUpsertSpec(ds, u, timestamp);
    LocalUpsertSpec(ds, clientId, retailerId, status, notes);
  }

  // ------------------------------------------------------------ deletions

  /** `handleDeleteClient` offline: the client and its distributions go;
      the rest stays in order. */
  function LocalDeleteClient(data: LocalData, id: Id): (r: LocalData)
    ensures r.retailers == data.retailers
    ensures forall c :: c in r.clients <==> c in data.clients && c.id != id
    ensures forall d :: d in r.distributions <==> d in data.distributions && d.clientId != id
    ensures IsSubsequence(r.clients, data.clients) && IsSubsequence(r.distributions, data.distributions)
  {
    data.(clients := ClientsWithoutId(data.clients, id), distributions := DistributionsWithoutClient(data.distributions, id))
  }

  /** `handleDeleteRetailer` offline: the retailer and its distributions
      go; the rest stays in order. */
  function LocalDeleteRetailer(data: LocalData, id: Id): (r: LocalData)
    ensures r.clients == data.clients
    ensures forall x :: x in r.retailers <==> x in data.retailers && x.id != id
    ensures forall d :: d in r.distributions <==> d in data.distributions && d.retailerId != id
    ensures IsSubsequence(r.retailers, data.retailers) && IsSubsequence(r.distributions, data.distributions)
  {
    data.(retailers := RetailersWithoutId(data.retailers, id), distributions := DistributionsWithoutRetailer(data.distributions, id))
  }

  /** Offline and server deletes leave the same lists. */
  lemma LocalDeleteMatchesServer(data: LocalData, id: Id)
    ensures LocalDeleteClient(data, id).clients == ClientsWithoutId(data.clients, id)
    ensures LocalDeleteClient(data, id).distributions == DistributionsWithoutClient(data.distributions, id)
    ensures LocalDeleteRetailer(data, id).retailers == RetailersWithoutId(data.retailers, id)
    ensures LocalDeleteRetailer(data, id).distributions == DistributionsWithoutRetailer(data.distributions, id)
  {
  }

  // -------------------------------------------------------------- updates

  /** `handleUpdateClient` offline: every client with the id gets the name,
      status and status date; nothing else changes. */
  function LocalUpdateClient(cs: seq<Client>, id: Id, name: string, status: ClientStatus, statusDate: Option<string>): (r: seq<Client>)
    ensures |r| == |cs|
    ensures forall i :: 0 <= i < |cs| ==> r[i].id == cs[i].id
    ensures forall i :: 0 <= i < |cs| && cs[i].id == id ==>
      r[i].name == name && r[i].status == status && r[i].statusDate == statusDate &&
      r[i].createdAt == cs[i].createdAt && r[i].updatedAt == cs[i].updatedAt
    ensures forall i :: 0 <= i < |cs| && cs[i].id != id ==> r[i] == cs[i]
  {
    seq(|cs|, i requires 0 <= i < |cs| =>
      if cs[i].id == id then cs[i].(name := name, status := status, statusDate := statusDate) else cs[i])
  }

  /** Applying the same client edit twice is applying it once. */
  lemma LocalUpdateClientIdempotent(cs: seq<Client>, id: Id, name: string, status: ClientStatus, statusDate: Option<string>)
    ensures LocalUpdateClient(LocalUpdateClient(cs, id, name, status, statusDate), id, name, status, statusDate)
         == LocalUpdateClient(cs, id, name, status, statusDate)
  {
  }

  /** `handleUpdateRetailer` offline: name, category and type of every
      retailer with the id. */
  function LocalUpdateRetailer(rs: seq<Retailer>, id: Id, name: string, category: RetailerCategory, retailerType: string): (r: seq<Retailer>)
    ensures |r| == |rs|
    ensures forall i :: 0 <= i < |rs| ==> r[i].id == rs[i].id
    ensures forall i :: 0 <= i < |rs| && rs[i].id == id ==>
      r[i] == rs[i].(name := name, category := category, retailerType := retailerType)
    ensures forall i :: 0 <= i < |rs| && rs[i].id != id ==> r[i] == rs[i]
  {
    seq(|rs|, i requires 0 <= i < |rs| =>
      if rs[i].id == id then rs[i].(name := name, category := category, retailerType := retailerType) else rs[i])
  }

  /** `handleUpdateRetailerFull` offline: every retailer with the new
      record's id is replaced whole. */
  function LocalUpdateRetailerFull(rs: seq<Retailer>, updated: Retailer): (r: seq<Retailer>)
    ensures |r| == |rs|
    ensures forall i :: 0 <= i < |rs| ==> r[i].id == rs[i].id
    ensures forall i :: 0 <= i < |rs| && rs[i].id == updated.id ==> r[i] == updated
    ensures forall i :: 0 <= i < |rs| && rs[i].id != updated.id ==> r[i] == rs[i]
  {
    seq(|rs|, i requires 0 <= i < |rs| => if rs[i].id == updated.id then updated else rs[i])
  }

  /** A full update carrying every field of a partial one does the same. */
  lemma FullUpdateSubsumesPartial(rs: seq<Retailer>, x: Retailer, name: string, category: RetailerCategory, retailerType: string)
    requires forall i :: 0 <= i < |rs| && rs[i].id == x.id ==> rs[i] == x
    ensures LocalUpdateRetailerFull(rs, x.(name := name, category := category, retailerType := retailerType))
         == LocalUpdateRetailer(rs, x.id, name, category, retailerType)
  {
  }

  // ---------------------------------------------------------------- adds

  /** `handleAddClient` offline. */
  function LocalAddClient(cs: seq<Client>, id: Id, name: string, status: ClientStatus, statusDate: Option<string>): (r: seq<Client>)
    ensures |r| == |cs| + 1 && r[..|cs|] == cs
    ensures r[|cs|] == Client(id, name, status, statusDate, None, None)
  {
    cs + [Client(id, name, status, statusDate, None, None)]
  }

  /** The offline retailer id: the slug of the name, with no clock
      suffix. */
  function LocalRetailerId(name: string): (r: Id)
  {
    Slug(name)
  }

  /** The offline id has one character of `[a-z0-9-]` per character of the
      name, and it is the server's id for the same name without the dash
      and the clock. */
  lemma LocalRetailerIdSpec(name: string, nowMillis: nat)
    ensures |LocalRetailerId(name)| == |name|
    ensures forall i :: 0 <= i < |name| ==> SlugChar(LocalRetailerId(name)[i])
    ensures ServerRetailerId(name, nowMillis) == LocalRetailerId(name) + "-" + NatToString(nowMillis)
    ensures |ServerRetailerId(name, nowMillis)| > |LocalRetailerId(name)| + 1
  {
  }

  /** Different names can share an offline id: case and punctuation are
      lost. */
  lemma LocalRetailerIdsCollide()
    ensures LocalRetailerId("A&B") == LocalRetailerId("a b") == "a-b"
  {
    assert LocalRetailerId("A&B")[0] == 'a';
  }

  /** `handleAddRetailer` offline: one retailer at the end, with empty
      contacts and texts. */
  function LocalAddRetailer(rs: seq<Retailer>, name: string, category: RetailerCategory, retailerType: string): (r: seq<Retailer>)
    ensures |r| == |rs| + 1 && r[..|rs|] == rs
    ensures r[|rs|].id == LocalRetailerId(name) && r[|rs|].name == name
    ensures r[|rs|].category == category && r[|rs|].retailerType == retailerType
    ensures r[|rs|].contacts == Some([])
    ensures r[|rs|].lineReviewTiming == r[|rs|].resetDates == r[|rs|].notes == Some("")
  {
    rs + [Retailer(LocalRetailerId(name), name, category, retailerType, Some([]), Some(""), Some(""), Some(""), None, None)]
  }

  /** `handleClearAllData` offline. */
  function LocalClear(data: LocalData): (r: LocalData)
    ensures r.clients == [] && r.retailers == [] && r.distributions == []
  {
    LocalData([], [], [])
  }

  // ------------------------------------------------------------- filtering

  /** A client passes when its lower-cased name contains the lower-cased
      search term and the status filter is `all` or its status. */
  predicate MatchesFilter(c: Client, searchTerm: string, statusFilter: string)
  {
    Contains(Lower(c.name), Lower(searchTerm)) && (statusFilter == "all" || c.status.Name() == statusFilter)
  }

  /** `filteredClients`. */
  function FilteredClients(cs: seq<Client>, searchTerm: string, statusFilter: string): (r: seq<Client>)
    ensures IsSubsequence(r, cs)
    ensures forall c :: c in r <==> c in cs && MatchesFilter(c, searchTerm, statusFilter)
    ensures |r| == |cs| <==> forall i :: 0 <= i < |cs| ==> MatchesFilter(cs[i], searchTerm, statusFilter)
  {
    var keep := (c: Client) => MatchesFilter(c, searchTerm, statusFilter);
    FilterIsSubsequence(cs, keep);
    Filter(cs, keep)
  }

  /** With no search term and the `all` filter every client is shown. */
  lemma NoFilterShowsAll(cs: seq<Client>)
    ensures FilteredClients(cs, "", "all") == cs
  {
    forall i | 0 <= i < |cs| ensures MatchesFilter(cs[i], "", "all") {
      ContainsEmpty(Lower(cs[i].name));
    }
    FilterAllPass(cs, (c: Client) => MatchesFilter(c, "", "all"));
  }

  /** A status filter that names no status hides every client. */
  lemma UnknownStatusFilterShowsNone(cs: seq<Client>, searchTerm: string, statusFilter: string)
    requires statusFilter !in {"all", "Active", "Live", "Projected", "Recruiting"}
    ensures FilteredClients(cs, searchTerm, statusFilter) == []
  {
    FilterNonePass(cs, (c: Client) => MatchesFilter(c, searchTerm, statusFilter));
  }
}
