/** The analytics dashboard's figures, computed in the browser from the
    lists it is given: the same metrics as the server, the pie chart of
    clients by status and the window of history it plots. */
module Dashboard {
  import opened Common
  import opened Seqs
  import opened Types
  import opened Metrics

  /** One slice of the status pie. */
  datatype PieSlice = PieSlice(name: string, value: nat, color: string)

  const DefaultColor: string := "#94a3b8"

  /** `STATUS_COLORS[name] || '#94a3b8'`. */
  function StatusColor(name: string): string
  {
    if name == "Active" then "#22c55e"
    else if name == "Live" then "#3b82f6"
    else if name == "Projected" then "#f97316"
    else if name == "Recruiting" then "#a855f7"
    else DefaultColor
  }

  /** Each status has a colour of its own, none of them the default. */
  lemma StatusColorsDistinct(a: ClientStatus, b: ClientStatus)
    ensures StatusColor(a.Name()) != DefaultColor
    ensures a != b ==> StatusColor(a.Name()) != StatusColor(b.Name())
  {
  }

  lemma StatusNameInjective(a: ClientStatus, b: ClientStatus)
    ensures a.Name() == b.Name() ==> a == b
  {
  }

  /** The figures the dashboard shows from its own lists agree with the
      server's: active distributions are those with a status, coverage is
      0 without pairs, and the by-status counts are per-status client
      counts adding up to the clients. */
  lemma DashboardMetricsSpec(cs: seq<Client>, rs: seq<Retailer>, ds: seq<Distribution>)
    ensures forall d :: d in ActiveDistributions(ds) <==> d in ds && d.status != NoStatus
    ensures |cs| * |rs| == 0 ==> Coverage(|ActiveDistributions(ds)|, |cs| * |rs|) == 0
    ensures |ActiveDistributions(ds)| <= |cs| * |rs| ==> Coverage(|ActiveDistributions(ds)|, |cs| * |rs|) <= 100
    ensures forall s :: Lookup(Tally(cs), s) == |ClientsWithStatus(cs, s)|
    ensures Sum(Tally(cs)) == |cs|
  {
    ActiveDistributionsSpec(ds);
    TallyCorrect(cs);
    if |ActiveDistributions(ds)| <= |cs| * |rs| {
      CoverageAtMost100(|ActiveDistributions(ds)|, |cs| * |rs|);
    }
  }

  /** `Object.entries(clientsByStatus).map(...)`, in key order. */
  function PieData(t: seq<StatusCount>): (r: seq<PieSlice>)
    ensures |r| == |t|
    ensures forall k :: 0 <= k < |t| ==> r[k] == PieSlice(t[k].status.Name(), t[k].count, StatusColor(t[k].status.Name()))
  {
    seq(|t|, k requires 0 <= k < |t| => PieSlice(t[k].status.Name(), t[k].count, StatusColor(t[k].status.Name())))
  }

  /** The pie has one slice for each status some client has and for no
      other, no two slices share a name, and each slice's value is the
      number of clients with that status. */
  lemma PieDataSpec(cs: seq<Client>)
    ensures var r := PieData(Tally(cs));
      && (forall s: ClientStatus :: (exists k :: 0 <= k < |r| && r[k].name == s.Name()) <==> (exists c :: c in cs && c.status == s))
      && (forall i, j :: 0 <= i < j < |r| ==> r[i].name != r[j].name)
      && (forall k, s: ClientStatus :: 0 <= k < |r| && r[k].name == s.Name() ==> r[k].value == |ClientsWithStatus(cs, s)| >= 1)
  {
    var t := Tally(cs);
    var r := PieData(t);
    TallyCorrect(cs);
    forall s: ClientStatus ensures (exists k :: 0 <= k < |r| && r[k].name == s.Name()) <==> (exists c :: c in cs && c.status == s) {
      TallyKeys(cs, s);
      if exists k :: 0 <= k < |r| && r[k].name == s.Name() {
        var k :| 0 <= k < |r| && r[k].name == s.Name();
        StatusNameInjective(t[k].status, s);
      }
    }
    forall i, j | 0 <= i < j < |r| ensures r[i].name != r[j].name {
      StatusNameInjective(t[i].status, t[j].status);
    }
    forall k, s: ClientStatus | 0 <= k < |r| && r[k].name == s.Name() ensures r[k].value == |ClientsWithStatus(cs, s)| >= 1 {
      StatusNameInjective(t[k].status, s);
      StatusIndexIs(t, s, k);
    }
  }

  /** `[...history].reverse().slice(-14)`: the newest 14 snapshots of a
      newest-first history, oldest first. */
  function RecentHistory(h: seq<Snapshot>): (r: seq<Snapshot>)
    ensures |r| == if |h| < 14 then |h| else 14
    ensures forall k :: 0 <= k < |r| ==> r[k] == h[|r| - 1 - k]
  {
    var n := if |h| < 14 then |h| else 14;
    Reverse(h)[|h| - n..]
  }

  /** `generatePlaceholderHistory`: 14 copies of today's figures, dated
      from 13 days back to today. `dateBefore(i)` is the date `i` days
      before today. */
  method PlaceholderHistory(cs: seq<Client>, rs: seq<Retailer>, ds: seq<Distribution>, dateBefore: nat -> string)
    returns (r: seq<Snapshot>)
    ensures |r| == 14
    ensures forall k :: 0 <= k < 14 ==> r[k] == SnapshotOf(dateBefore(13 - k), cs, rs, ds)
  {
    var active := |ActiveDistributions(ds)|;
    var coverage := Coverage(active, |cs| * |rs|);
    var byStatus := Tally(cs);
    r := [];
    var i := 13;
    while i >= 0
      invariant -1 <= i <= 13
      invariant |r| == 13 - i
      invariant forall k :: 0 <= k < |r| ==> r[k] == SnapshotOf(dateBefore(13 - k), cs, rs, ds)
    {
      r := r + [Snapshot(dateBefore(i), |cs|, |rs|, active, byStatus, coverage)];
      i := i - 1;
    }
  }

  /** `historyData`: the recent stored history when there is any,
      otherwise the placeholder. */
  method HistoryData(history: Option<seq<Snapshot>>, cs: seq<Client>, rs: seq<Retailer>, ds: seq<Distribution>,
                     dateBefore: nat -> string)
    returns (r: seq<Snapshot>)
    ensures history.Some? && |history.value| > 0 ==> r == RecentHistory(history.value)
    ensures history.Some? && |history.value| > 0 ==> 1 <= |r| <= 14
    ensures !(history.Some? && |history.value| > 0) ==>
      |r| == 14 && forall k :: 0 <= k < 14 ==> r[k] == SnapshotOf(dateBefore(13 - k), cs, rs, ds)
  {
    if history.Some? && |history.value| > 0 {
      r := RecentHistory(history.value);
    } else {
      r := PlaceholderHistory(cs, rs, ds, dateBefore);
    }
  }
}
