/** The client-by-retailer matrix: retailers split by category, the
    distribution shown in a cell and the colours of cells and status
    badges. */
module MatrixView {
  import opened Common
  import opened Seqs
  import opened Types
  import opened Entities

  /** `retailers.filter(r => r.category === 'Physical')`. */
  function PhysicalRetailers(rs: seq<Retailer>): (r: seq<Retailer>)
    ensures forall x :: x in r <==> x in rs && x.category == Physical
    ensures IsSubsequence(r, rs)
  {
    var keep := (x: Retailer) => x.category == Physical;
    FilterIsSubsequence(rs, keep);
    Filter(rs, keep)
  }

  /** `retailers.filter(r => r.category === 'Digital')`. */
  function DigitalRetailers(rs: seq<Retailer>): (r: seq<Retailer>)
    ensures forall x :: x in r <==> x in rs && x.category == Digital
    ensures IsSubsequence(r, rs)
  {
    var keep := (x: Retailer) => x.category == Digital;
    FilterIsSubsequence(rs, keep);
    Filter(rs, keep)
  }

  /** The two column groups hold every retailer once. */
  lemma CategoriesPartition(rs: seq<Retailer>)
    ensures multiset(PhysicalRetailers(rs)) + multiset(DigitalRetailers(rs)) == multiset(rs)
    ensures |PhysicalRetailers(rs)| + |DigitalRetailers(rs)| == |rs|
  {
    FilterPartition(rs, (x: Retailer) => x.category == Physical, (x: Retailer) => x.category == Digital);
  }

  /** `getDistribution`: the first distribution of the pair. */
  function GetDistribution(ds: seq<Distribution>, clientId: Id, retailerId: Id): (r: Option<Distribution>)
    ensures r.None? <==> forall i :: 0 <= i < |ds| ==> !HasPair(ds[i], clientId, retailerId)
    ensures r.Some? ==> exists i :: 0 <= i < |ds| && ds[i] == r.value && HasPair(ds[i], clientId, retailerId) &&
                          forall j :: 0 <= j < i ==> !HasPair(ds[j], clientId, retailerId)
  {
    match PairIndex(ds, clientId, retailerId)
    case Some(i) => Some(ds[i])
    case None => None
  }

  /** With one record per pair, a cell shows that record. */
  lemma GetDistributionUnique(ds: seq<Distribution>, i: nat)
    requires PairsUnique(ds) && i < |ds|
    ensures GetDistribution(ds, ds[i].clientId, ds[i].retailerId) == Some(ds[i])
  {
    var k :| 0 <= k < |ds| && ds[k] == GetDistribution(ds, ds[i].clientId, ds[i].retailerId).value &&
      HasPair(ds[k], ds[i].clientId, ds[i].retailerId);
    if k < i {
      assert !HasPair(ds[i], ds[k].clientId, ds[k].retailerId);
    }
  }

  const White: string := "bg-white hover:bg-gray-50"

  /** `getCellColor`: white for a missing, empty or unknown status. */
  function CellColor(status: Option<string>): (r: string)
    ensures r != White <==> status.Some? && status.value in {"shelves", "shelves-screens", "x-client"}
  {
    if status.None? || status.value == "" then White
    else if status.value == "shelves" then "bg-blue-500 hover:bg-blue-600"
    else if status.value == "shelves-screens" then "bg-green-500 hover:bg-green-600"
    else if status.value == "x-client" then "bg-red-500 hover:bg-red-600"
    else White
  }

  /** The colour of the cell of a pair: `getCellColor(getDistribution(...)?.status)`. */
  function CellOf(ds: seq<Distribution>, clientId: Id, retailerId: Id): string
  {
    match GetDistribution(ds, clientId, retailerId)
    case Some(d) => CellColor(Some(d.status.Name()))
    case None => CellColor(None)
  }

  /** A cell is coloured exactly when the pair's first record has a
      status, and the three statuses have colours of their own. */
  lemma CellOfSpec(ds: seq<Distribution>, clientId: Id, retailerId: Id, a: DistStatus, b: DistStatus)
    ensures CellOf(ds, clientId, retailerId) != White <==>
      GetDistribution(ds, clientId, retailerId).Some? && GetDistribution(ds, clientId, retailerId).value.status != NoStatus
    ensures a != b ==> CellColor(Some(a.Name())) != CellColor(Some(b.Name()))
  {
  }

  const Gray: string := "bg-gray-100 text-gray-800 border-gray-200"

  /** `getStatusBadgeColor`. */
  function StatusBadgeColor(s: string): (r: string)
    ensures r == Gray <==> s !in {"Active", "Live", "Projected", "Recruiting"}
  {
    if s == "Active" then "bg-green-100 text-green-800 border-green-200"
    else if s == "Live" then "bg-blue-100 text-blue-800 border-blue-200"
    else if s == "Projected" then "bg-orange-100 text-orange-800 border-orange-200"
    else if s == "Recruiting" then "bg-purple-100 text-purple-800 border-purple-200"
    else Gray
  }

  /** The four client statuses have four different badges. */
  lemma BadgeColorsDistinct(a: ClientStatus, b: ClientStatus)
    ensures StatusBadgeColor(a.Name()) != Gray
    ensures a != b ==> StatusBadgeColor(a.Name()) != StatusBadgeColor(b.Name())
  {
  }
}
