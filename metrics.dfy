/** The coverage metrics that both the analytics routes and the dashboard
    compute: the count of active distributions, the coverage percentage
    and the tally of clients by status. */
module Metrics {
  import opened Common
  import opened Seqs
  import opened Types

  /** `distributions.filter(d => d.status && d.status !== '')`. */
  function ActiveDistributions(ds: seq<Distribution>): (r: seq<Distribution>)
  {
    Filter(ds, (d: Distribution) => d.status != NoStatus)
  }

  /** The active distributions are exactly those with a non-empty status,
      kept in order. */
  lemma ActiveDistributionsSpec(ds: seq<Distribution>)
    ensures forall d :: d in ActiveDistributions(ds) <==> d in ds && d.status != NoStatus
    ensures IsSubsequence(ActiveDistributions(ds), ds)
    ensures |ActiveDistributions(ds)| == |ds| <==> forall i :: 0 <= i < |ds| ==> ds[i].status != NoStatus
  {
    FilterIsSubsequence(ds, (d: Distribution) => d.status != NoStatus);
  }

  /** Splitting on the empty status: active plus inactive is everything. */
  lemma ActivePlusInactive(ds: seq<Distribution>)
    ensures |ActiveDistributions(ds)| + |Filter(ds, (d: Distribution) => d.status == NoStatus)| == |ds|
  {
    FilterPartition(ds, (d: Distribution) => d.status != NoStatus, (d: Distribution) => d.status == NoStatus);
  }

  /** `Math.round(active / possible * 100)`, or 0 when there are no
      possible pairs, in exact arithmetic: the nearest integer to
      `100 * active / possible`, halves rounded up. */
  function Coverage(active: nat, possible: nat): (r: nat)
    ensures possible == 0 ==> r == 0
    ensures possible > 0 ==> 2 * possible * r <= 200 * active + possible < 2 * possible * (r + 1)
  {
    if possible > 0 then (200 * active + possible) / (2 * possible) else 0
  }

  /** When there are no more active distributions than pairs, coverage is
      a percentage. */
  lemma CoverageAtMost100(active: nat, possible: nat)
    requires active <= possible
    ensures Coverage(active, possible) <= 100
  {
    if possible > 0 {
      var r := Coverage(active, possible);
      if r >= 101 {
        assert 2 * possible * r >= 2 * possible * 101 by {
          MulMonotone(2 * possible, 101, r);
        }
        assert false;
      }
    }
  }

  lemma MulMonotone(k: nat, a: nat, b: nat)
    requires a <= b
    ensures k * a <= k * b
  {
  }

  // ------------------------------------------------------ clients by status

  /** The position of `s` among the keys. */
  function StatusIndex(t: seq<StatusCount>, s: ClientStatus): (r: Option<nat>)
    ensures r.Some? ==> r.value < |t| && t[r.value].status == s
    ensures r.Some? ==> forall j :: 0 <= j < r.value ==> t[j].status != s
    ensures r.None? <==> forall j :: 0 <= j < |t| ==> t[j].status != s
  {
    FirstIndex(t, (e: StatusCount) => e.status == s)
  }

  lemma StatusIndexIs(t: seq<StatusCount>, s: ClientStatus, i: nat)
    requires i < |t| && t[i].status == s
    requires forall j :: 0 <= j < i ==> t[j].status != s
    ensures StatusIndex(t, s) == Some(i)
  {
  }

  /** Two key lists with the same keys at the same places find `s` at the
      same place. */
  lemma StatusIndexSameKeys(t: seq<StatusCount>, t': seq<StatusCount>, s: ClientStatus)
    requires |t'| >= |t|
    requires forall j :: 0 <= j < |t| ==> t'[j].status == t[j].status
    requires forall j :: |t| <= j < |t'| ==> t'[j].status != s
    ensures StatusIndex(t', s) == StatusIndex(t, s)
  {
    match StatusIndex(t, s)
    case Some(k) => StatusIndexIs(t', s, k);
    case None =>
  }

  /** `acc[s] = (acc[s] || 0) + 1` on an object that keeps its keys in
      insertion order. */
  function Bump(t: seq<StatusCount>, s: ClientStatus): seq<StatusCount>
  {
    match StatusIndex(t, s)
    case Some(i) => t[i := StatusCount(s, t[i].count + 1)]
    case None => t + [StatusCount(s, 1)]
  }

  /** The `clientsByStatus` object: a left fold of `Bump` over the clients. */
  function Tally(cs: seq<Client>): seq<StatusCount>
    decreases |cs|
  {
    if |cs| == 0 then [] else Bump(Tally(cs[..|cs| - 1]), cs[|cs| - 1].status)
  }

  /** `acc[s] || 0`. */
  function Lookup(t: seq<StatusCount>, s: ClientStatus): nat
  {
    match StatusIndex(t, s)
    case Some(i) => t[i].count
    case None => 0
  }

  function ClientsWithStatus(cs: seq<Client>, s: ClientStatus): seq<Client>
  {
    Filter(cs, (c: Client) => c.status == s)
  }

  function Sum(t: seq<StatusCount>): nat
    decreases |t|
  {
    if |t| == 0 then 0 else t[0].count + Sum(t[1..])
  }

  /** No status appears twice among the keys. */
  ghost predicate KeysDistinct(t: seq<StatusCount>)
  {
    forall i, j :: 0 <= i < j < |t| ==> t[i].status != t[j].status
  }

  ghost predicate CountsPositive(t: seq<StatusCount>)
  {
    forall i :: 0 <= i < |t| ==> t[i].count >= 1
  }

  lemma {:induction false} SumAppend(t: seq<StatusCount>, e: StatusCount)
    ensures Sum(t + [e]) == Sum(t) + e.count
    decreases |t|
  {
    if |t| > 0 {
      assert (t + [e])[1..] == t[1..] + [e];
      SumAppend(t[1..], e);
    }
  }

  lemma {:induction false} SumUpdate(t: seq<StatusCount>, i: nat, e: StatusCount)
    requires i < |t|
    ensures Sum(t[i := e]) + t[i].count == Sum(t) + e.count
    decreases |t|
  {
    if i > 0 {
      assert t[i := e][1..] == t[1..][i - 1 := e];
      SumUpdate(t[1..], i - 1, e);
    }
  }

  lemma BumpLookup(t: seq<StatusCount>, x: ClientStatus, s: ClientStatus)
    ensures Lookup(Bump(t, x), s) == Lookup(t, s) + (if x == s then 1 else 0)
  {
    var t' := Bump(t, x);
    match StatusIndex(t, x)
    case Some(i) =>
      if x == s {
        StatusIndexIs(t', s, i);
      } else {
        StatusIndexSameKeys(t, t', s);
      }
    case None =>
      if x == s {
        StatusIndexIs(t', s, |t|);
      } else {
        StatusIndexSameKeys(t, t', s);
      }
  }

  lemma BumpInvariants(t: seq<StatusCount>, x: ClientStatus)
    requires KeysDistinct(t) && CountsPositive(t)
    ensures KeysDistinct(Bump(t, x)) && CountsPositive(Bump(t, x))
    ensures Sum(Bump(t, x)) == Sum(t) + 1
  {
    match StatusIndex(t, x)
    case Some(i) =>
      SumUpdate(t, i, StatusCount(x, t[i].count + 1));
    case None =>
      SumAppend(t, StatusCount(x, 1));
  }

  lemma ClientsWithStatusSnoc(cs: seq<Client>, c: Client, s: ClientStatus)
    ensures |ClientsWithStatus(cs + [c], s)| == |ClientsWithStatus(cs, s)| + (if c.status == s then 1 else 0)
  {
    FilterConcat(cs, [c], (c: Client) => c.status == s);
  }

  /** Every tally value is the number of clients with that status (0 for a
      status that is absent), no status is a key twice, every count is at
      least one, and the counts add up to the number of clients. */
  lemma {:induction false} TallyCorrect(cs: seq<Client>)
    ensures forall s :: Lookup(Tally(cs), s) == |ClientsWithStatus(cs, s)|
    ensures KeysDistinct(Tally(cs)) && CountsPositive(Tally(cs))
    ensures Sum(Tally(cs)) == |cs|
    decreases |cs|
  {
    if |cs| > 0 {
      var init, last := cs[..|cs| - 1], cs[|cs| - 1];
      assert cs == init + [last];
      TallyCorrect(init);
      BumpInvariants(Tally(init), last.status);
      forall s ensures Lookup(Tally(cs), s) == |ClientsWithStatus(cs, s)| {
        BumpLookup(Tally(init), last.status, s);
        ClientsWithStatusSnoc(init, last, s);
      }
    }
  }

  /** A status is a key of the tally exactly when some client has it. */
  lemma TallyKeys(cs: seq<Client>, s: ClientStatus)
    ensures (exists i :: 0 <= i < |Tally(cs)| && Tally(cs)[i].status == s) <==> (exists c :: c in cs && c.status == s)
  {
    TallyCorrect(cs);
    var t := Tally(cs);
    if exists i :: 0 <= i < |t| && t[i].status == s {
      var k := StatusIndex(t, s).value;
      assert Lookup(t, s) >= 1;
      assert |ClientsWithStatus(cs, s)| >= 1;
      var c := ClientsWithStatus(cs, s)[0];
      assert c in ClientsWithStatus(cs, s);
    }
    if exists c :: c in cs && c.status == s {
      var c :| c in cs && c.status == s;
      assert c in ClientsWithStatus(cs, s);
      assert Lookup(t, s) > 0;
      var k := StatusIndex(t, s).value;
      assert t[k].status == s;
    }
  }

  /** The metrics of one snapshot, on the given date. */
  function SnapshotOf(date: string, cs: seq<Client>, rs: seq<Retailer>, ds: seq<Distribution>): Snapshot
  {
    var active := |ActiveDistributions(ds)|;
    Snapshot(date, |cs|, |rs|, active, Tally(cs), Coverage(active, |cs| * |rs|))
  }

  /** A snapshot's tally adds up to its client count, its distribution
      count is the number of active distributions, and its coverage is 0
      without pairs and at most 100 when there are no more active
      distributions than pairs. */
  lemma SnapshotMetrics(date: string, cs: seq<Client>, rs: seq<Retailer>, ds: seq<Distribution>)
    ensures var s := SnapshotOf(date, cs, rs, ds);
      && s.date == date
      && Sum(s.clientsByStatus) == s.totalClients == |cs|
      && s.totalRetailers == |rs|
      && s.totalDistributions == |Filter(ds, (d: Distribution) => d.status != NoStatus)|
      && (|cs| * |rs| == 0 ==> s.distributionCoverage == 0)
      && (s.totalDistributions <= |cs| * |rs| ==> s.distributionCoverage <= 100)
  {
    TallyCorrect(cs);
    var active := |ActiveDistributions(ds)|;
    if active <= |cs| * |rs| {
      CoverageAtMost100(active, |cs| * |rs|);
    }
  }

  /** Coverage is not bounded by 100 in general: the upsert never checks
      that its ids exist, so one client, one retailer and two active
      distributions give 200. */
  lemma CoverageCanExceed100()
    ensures Coverage(2, 1) == 200
  {
  }
}
