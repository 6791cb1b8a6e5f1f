/** What the entity routes of the server compute from the arrays they read
    before they write them back: the distribution upsert, the bounded
    activity log, the partial-update merges, the cascading filters, the
    retailer id slug and the dated snapshot history. */
module Entities {
  import opened Common
  import opened Seqs
  import opened Types

  // -------------------------------------------------------- distributions

  predicate HasPair(d: Distribution, clientId: Id, retailerId: Id)
  {
    d.clientId == clientId && d.retailerId == retailerId
  }

  /** At most one distribution per (clientId, retailerId) pair. */
  ghost predicate PairsUnique(ds: seq<Distribution>)
  {
    forall i, j :: 0 <= i < j < |ds| ==> !HasPair(ds[j], ds[i].clientId, ds[i].retailerId)
  }

  /** `distributions.findIndex(d => d.clientId === clientId && d.retailerId === retailerId)`. */
  function PairIndex(ds: seq<Distribution>, clientId: Id, retailerId: Id): (r: Option<nat>)
    ensures r.Some? ==> r.value < |ds| && HasPair(ds[r.value], clientId, retailerId)
    ensures r.Some? ==> forall j :: 0 <= j < r.value ==> !HasPair(ds[j], clientId, retailerId)
    ensures r.None? <==> forall j :: 0 <= j < |ds| ==> !HasPair(ds[j], clientId, retailerId)
  {
    FirstIndex(ds, (d: Distribution) => HasPair(d, clientId, retailerId))
  }

  /** The record the upsert route builds (and returns): absent or falsy
      status and notes become `''`. */
  function UpdatedDistribution(clientId: Id, retailerId: Id, status: Field<DistStatus>, notes: Field<string>, timestamp: string): Distribution
  {
    Distribution(clientId, retailerId, Coalesce(status, NoStatus), Coalesce(notes, ""), None, Some(timestamp))
  }

  /** Replace the record of the pair in place, or append it with a
      `createdAt`. */
  function ServerUpsert(ds: seq<Distribution>, u: Distribution, timestamp: string): seq<Distribution>
  {
    match PairIndex(ds, u.clientId, u.retailerId)
    case Some(i) => ds[i := u]
    case None => ds + [u.(createdAt := Some(timestamp))]
  }

  /** Upserting into a table with unique pairs: afterwards exactly one record
      has the pair and it carries the new status and notes; every other
      record stays where it was; the table grows by one exactly when the
      pair was absent; a replaced record loses its `createdAt` and only an
      appended one gets one. */
  lemma ServerUpsertSpec(ds: seq<Distribution>, u: Distribution, timestamp: string)
    requires PairsUnique(ds)
    ensures var r := ServerUpsert(ds, u, timestamp);
      && PairsUnique(r)
      && (exists k :: 0 <= k < |r| && HasPair(r[k], u.clientId, u.retailerId))
      && (forall k :: 0 <= k < |r| && HasPair(r[k], u.clientId, u.retailerId) ==>
            r[k].status == u.status && r[k].notes == u.notes && r[k].updatedAt == u.updatedAt)
      && (forall i :: 0 <= i < |ds| && !HasPair(ds[i], u.clientId, u.retailerId) ==> r[i] == ds[i])
      && (|r| == |ds| || |r| == |ds| + 1)
      && (|r| == |ds| + 1 <==> forall i :: 0 <= i < |ds| ==> !HasPair(ds[i], u.clientId, u.retailerId))
      && (forall i :: 0 <= i < |ds| && HasPair(ds[i], u.clientId, u.retailerId) ==> r == ds[i := u])
      && ((forall i :: 0 <= i < |ds| ==> !HasPair(ds[i], u.clientId, u.retailerId)) ==>
            r == ds + [u.(createdAt := Some(timestamp))])
  {
    var c, t := u.clientId, u.retailerId;
    var r := ServerUpsert(ds, u, timestamp);
    match PairIndex(ds, c, t)
    case Some(i) =>
      assert HasPair(r[i], c, t);
    case None =>
      assert HasPair(r[|ds|], c, t);
  }

  /** Posting the same pair twice leaves one record, holding the second
      post's status and notes. */
  lemma UpsertTwiceKeepsLast(ds: seq<Distribution>, u1: Distribution, u2: Distribution, t1: string, t2: string)
    requires PairsUnique(ds)
    requires u1.clientId == u2.clientId && u1.retailerId == u2.retailerId
    ensures var r := ServerUpsert(ServerUpsert(ds, u1, t1), u2, t2);
      && |r| == |ServerUpsert(ds, u1, t1)|
      && PairsUnique(r)
      && forall k :: 0 <= k < |r| && HasPair(r[k], u2.clientId, u2.retailerId) ==> r[k] == u2
  {
    var r1 := ServerUpsert(ds, u1, t1);
    ServerUpsertSpec(ds, u1, t1);
    ServerUpsertSpec(r1, u2, t2);
    var i := PairIndex(r1, u2.clientId, u2.retailerId).value;
    var r := ServerUpsert(r1, u2, t2);
    assert r == r1[i := u2];
  }

  // --------------------------------------------------------- activity log

  /** `unshift` the entry, then `pop` once if more than 100 entries. */
  function PushActivity(log: seq<ActivityEntry>, e: ActivityEntry): (r: seq<ActivityEntry>)
    ensures |r| == if |log| < 100 then |log| + 1 else |log|
    ensures |log| <= 100 ==> |r| <= 100
    ensures r[0] == e && r[1..] == log[..|r| - 1]
  {
    var l := [e] + log;
    if |l| > 100 then l[..|l| - 1] else l
  }

  // -------------------------------------------------------------- clients

  /** `clients.findIndex(c => c.id === id)`. */
  function ClientIndex(cs: seq<Client>, id: Id): (r: Option<nat>)
    ensures r.Some? ==> r.value < |cs| && cs[r.value].id == id
    ensures r.Some? ==> forall j :: 0 <= j < r.value ==> cs[j].id != id
    ensures r.None? <==> forall j :: 0 <= j < |cs| ==> cs[j].id != id
  {
    FirstIndex(cs, (c: Client) => c.id == id)
  }

  /** The record `POST /clients` appends: a falsy `statusDate` is `null`. */
  function NewClient(id: Id, name: string, status: ClientStatus, statusDate: Field<string>, now: string): Client
  {
    Client(id, name, status, TextOrNull(statusDate), Some(now), None)
  }

  /** `PUT /clients/:id`: `name` and `status` keep the old value when null
      or left out; `statusDate` keeps it only when left out. */
  function MergeClient(c: Client, name: Field<string>, status: Field<ClientStatus>, statusDate: Field<string>, now: string): (r: Client)
    ensures r.id == c.id && r.createdAt == c.createdAt && r.updatedAt == Some(now)
    ensures !name.Given? ==> r.name == c.name
    ensures name.Given? ==> r.name == name.value
    ensures !status.Given? ==> r.status == c.status
    ensures status.Given? ==> r.status == status.value
    ensures statusDate.Undefined? ==> r.statusDate == c.statusDate
    ensures statusDate.Null? ==> r.statusDate == None
    ensures statusDate.Given? ==> r.statusDate == Some(statusDate.value)
  {
    c.(name := Coalesce(name, c.name),
       status := Coalesce(status, c.status),
       statusDate := UnlessUndefined(statusDate, c.statusDate),
       updatedAt := Some(now))
  }

  /** Sending the same update twice is the same as sending it once. */
  lemma MergeClientIdempotent(c: Client, name: Field<string>, status: Field<ClientStatus>, statusDate: Field<string>, t1: string, t2: string)
    ensures MergeClient(MergeClient(c, name, status, statusDate, t1), name, status, statusDate, t2)
         == MergeClient(c, name, status, statusDate, t2)
  {
  }

  /** `clients.filter(c => c.id !== id)`. */
  function ClientsWithoutId(cs: seq<Client>, id: Id): (r: seq<Client>)
    ensures forall c :: c in r <==> c in cs && c.id != id
    ensures IsSubsequence(r, cs)
    ensures |r| == |cs| <==> forall i :: 0 <= i < |cs| ==> cs[i].id != id
  {
    var keep := (c: Client) => c.id != id;
    FilterIsSubsequence(cs, keep);
    Filter(cs, keep)
  }

  /** `distributions.filter(d => d.clientId !== id)`. */
  function DistributionsWithoutClient(ds: seq<Distribution>, id: Id): (r: seq<Distribution>)
    ensures forall d :: d in r <==> d in ds && d.clientId != id
    ensures IsSubsequence(r, ds)
  {
    var keep := (d: Distribution) => d.clientId != id;
    FilterIsSubsequence(ds, keep);
    Filter(ds, keep)
  }

  /** Removing a table's rows for an id keeps pair uniqueness. */
  lemma SubsequenceKeepsPairsUnique(a: seq<Distribution>, b: seq<Distribution>)
    requires IsSubsequence(a, b) && PairsUnique(b)
    ensures PairsUnique(a)
    decreases |b|
  {
    if |a| > 0 {
      assert PairsUnique(b[1..]) by {
        forall i, j | 0 <= i < j < |b| - 1 ensures !HasPair(b[1..][j], b[1..][i].clientId, b[1..][i].retailerId) {
          assert b[1..][j] == b[j + 1] && b[1..][i] == b[i + 1];
        }
      }
      if a[0] == b[0] && IsSubsequence(a[1..], b[1..]) {
        SubsequenceKeepsPairsUnique(a[1..], b[1..]);
        SubsequenceElements(a[1..], b[1..]);
        forall i, j | 0 <= i < j < |a| ensures !HasPair(a[j], a[i].clientId, a[i].retailerId) {
          if i == 0 {
            assert a[j] == a[1..][j - 1];
            assert a[j] in b[1..];
            var k :| 0 <= k < |b[1..]| && b[1..][k] == a[j];
            assert b[k + 1] == a[j];
          } else {
            assert a[i] == a[1..][i - 1] && a[j] == a[1..][j - 1];
          }
        }
      } else {
        SubsequenceKeepsPairsUnique(a, b[1..]);
      }
    }
  }

  lemma SubsequenceElements<T>(a: seq<T>, b: seq<T>)
    requires IsSubsequence(a, b)
    ensures forall x :: x in a ==> x in b
    decreases |b|
  {
    if |a| > 0 {
      if a[0] == b[0] && IsSubsequence(a[1..], b[1..]) {
        SubsequenceElements(a[1..], b[1..]);
        assert forall x :: x in a ==> x == a[0] || x in a[1..];
      } else {
        SubsequenceElements(a, b[1..]);
      }
    }
  }

  // ------------------------------------------------------------ retailers

  /** `retailers.findIndex(r => r.id === id)`. */
  function RetailerIndex(rs: seq<Retailer>, id: Id): (r: Option<nat>)
    ensures r.Some? ==> r.value < |rs| && rs[r.value].id == id
    ensures r.Some? ==> forall j :: 0 <= j < r.value ==> rs[j].id != id
    ensures r.None? <==> forall j :: 0 <= j < |rs| ==> rs[j].id != id
  {
    FirstIndex(rs, (x: Retailer) => x.id == id)
  }

  predicate SlugChar(c: char)
  {
    'a' <= c <= 'z' || '0' <= c <= '9' || c == '-'
  }

  /** One character of `toLowerCase().replace(/[^a-z0-9]/g, '-')`. */
  function SlugOf(c: char): char
  {
    var l := LowerChar(c);
    if 'a' <= l <= 'z' || '0' <= l <= '9' then l else '-'
  }

  /** `name.toLowerCase().replace(/[^a-z0-9]/g, '-')`: one character of
      `[a-z0-9-]` per character of the name; letters and digits survive
      lower-cased. */
  function Slug(name: string): (r: string)
    ensures |r| == |name|
    ensures forall i :: 0 <= i < |r| ==> SlugChar(r[i])
    ensures forall i :: 0 <= i < |r| && ('a' <= LowerChar(name[i]) <= 'z' || '0' <= name[i] <= '9') ==> r[i] == LowerChar(name[i])
    ensures forall i :: 0 <= i < |r| && !('a' <= LowerChar(name[i]) <= 'z' || '0' <= name[i] <= '9') ==> r[i] == '-'
  {
    seq(|name|, i requires 0 <= i < |name| => SlugOf(name[i]))
  }

  /** A slug is its own slug. */
  lemma SlugIdempotent(name: string)
    ensures Slug(Slug(name)) == Slug(name)
  {
    assert forall i :: 0 <= i < |name| ==> Slug(Slug(name))[i] == Slug(name)[i];
  }

  /** The id `POST /retailers` gives: the slug, a dash and `Date.now()`. */
  function ServerRetailerId(name: string, nowMillis: nat): (r: Id)
  {
    Slug(name) + "-" + NatToString(nowMillis)
  }

  /** A server id is the slug followed by a dash and the decimal digits of
      the clock reading, which can be read back from it. */
  lemma ServerRetailerIdSpec(name: string, nowMillis: nat)
    ensures var r := ServerRetailerId(name, nowMillis);
      && |r| > |name| + 1
      && r[..|name|] == Slug(name)
      && r[|name|] == '-'
      && (forall i :: |name| < i < |r| ==> IsDigit(r[i]))
      && DigitsToNat(r[|name| + 1..]) == nowMillis
  {
    var r := ServerRetailerId(name, nowMillis);
    assert r[|name| + 1..] == NatToString(nowMillis);
    DigitsRoundTrip(nowMillis);
  }

  /** The record `POST /retailers` appends. */
  function NewRetailer(id: Id, name: string, category: RetailerCategory, retailerType: string, now: string): Retailer
  {
    Retailer(id, name, category, retailerType, Some([]), Some(""), Some(""), Some(""), Some(now), None)
  }

  /** `PUT /retailers/:id`: `name`, `category` and `type` keep the old value
      when null or left out; `contacts`, `lineReviewTiming`, `resetDates`
      and `notes` keep it only when left out. */
  function MergeRetailer(
    x: Retailer, name: Field<string>, category: Field<RetailerCategory>, retailerType: Field<string>,
    contacts: Field<seq<Contact>>, lineReviewTiming: Field<string>, resetDates: Field<string>, notes: Field<string>,
    now: string): (r: Retailer)
    ensures r.id == x.id && r.createdAt == x.createdAt && r.updatedAt == Some(now)
    ensures !name.Given? ==> r.name == x.name
    ensures !category.Given? ==> r.category == x.category
    ensures !retailerType.Given? ==> r.retailerType == x.retailerType
    ensures name.Given? ==> r.name == name.value
    ensures category.Given? ==> r.category == category.value
    ensures retailerType.Given? ==> r.retailerType == retailerType.value
    ensures contacts.Undefined? ==> r.contacts == x.contacts
    ensures lineReviewTiming.Undefined? ==> r.lineReviewTiming == x.lineReviewTiming
    ensures resetDates.Undefined? ==> r.resetDates == x.resetDates
    ensures notes.Undefined? ==> r.notes == x.notes
    ensures contacts.Null? ==> r.contacts == None
    ensures lineReviewTiming.Null? ==> r.lineReviewTiming == None
    ensures resetDates.Null? ==> r.resetDates == None
    ensures notes.Null? ==> r.notes == None
    ensures contacts.Given? ==> r.contacts == Some(contacts.value)
    ensures lineReviewTiming.Given? ==> r.lineReviewTiming == Some(lineReviewTiming.value)
    ensures resetDates.Given? ==> r.resetDates == Some(resetDates.value)
    ensures notes.Given? ==> r.notes == Some(notes.value)
  {
    x.(name := Coalesce(name, x.name),
       category := Coalesce(category, x.category),
       retailerType := Coalesce(retailerType, x.retailerType),
       contacts := UnlessUndefined(contacts, x.contacts),
       lineReviewTiming := UnlessUndefined(lineReviewTiming, x.lineReviewTiming),
       resetDates := UnlessUndefined(resetDates, x.resetDates),
       notes := UnlessUndefined(notes, x.notes),
       updatedAt := Some(now))
  }

  /** `retailers.filter(r => r.id !== id)`. */
  function RetailersWithoutId(rs: seq<Retailer>, id: Id): (r: seq<Retailer>)
    ensures forall x :: x in r <==> x in rs && x.id != id
    ensures IsSubsequence(r, rs)
    ensures |r| == |rs| <==> forall i :: 0 <= i < |rs| ==> rs[i].id != id
  {
    var keep := (x: Retailer) => x.id != id;
    FilterIsSubsequence(rs, keep);
    Filter(rs, keep)
  }

  /** `distributions.filter(d => d.retailerId !== id)`. */
  function DistributionsWithoutRetailer(ds: seq<Distribution>, id: Id): (r: seq<Distribution>)
    ensures forall d :: d in r <==> d in ds && d.retailerId != id
    ensures IsSubsequence(r, ds)
  {
    var keep := (d: Distribution) => d.retailerId != id;
    FilterIsSubsequence(ds, keep);
    Filter(ds, keep)
  }

  // ------------------------------------------------------ snapshot history

  /** `analyticsHistory.findIndex(s => s.date === date)`. */
  function DateIndex(h: seq<Snapshot>, date: string): (r: Option<nat>)
    ensures r.Some? ==> r.value < |h| && h[r.value].date == date
    ensures r.Some? ==> forall j :: 0 <= j < r.value ==> h[j].date != date
    ensures r.None? <==> forall j :: 0 <= j < |h| ==> h[j].date != date
  {
    FirstIndex(h, (s: Snapshot) => s.date == date)
  }

  /** At most one snapshot per date. */
  ghost predicate DatesUnique(h: seq<Snapshot>)
  {
    forall i, j :: 0 <= i < j < |h| ==> h[i].date != h[j].date
  }

  /** `if (h.length > 90) h.length = 90`. */
  function Truncate90(h: seq<Snapshot>): seq<Snapshot>
  {
    if |h| > 90 then h[..90] else h
  }

  /** Replace today's snapshot in place, or put it first; keep 90. */
  function HistoryUpsert(h: seq<Snapshot>, snap: Snapshot): seq<Snapshot>
  {
    match DateIndex(h, snap.date)
    case Some(i) => Truncate90(h[i := snap])
    case None => Truncate90([snap] + h)
  }

  /** The history never holds more than 90 snapshots. An entry for the date
      is replaced where it stands; otherwise the snapshot goes first and the
      oldest entries beyond 90 are dropped. From a history of at most 90
      entries with distinct dates, dates stay distinct and exactly the one
      entry with the snapshot's date is the snapshot. */
  lemma HistoryUpsertSpec(h: seq<Snapshot>, snap: Snapshot)
    ensures var r := HistoryUpsert(h, snap);
      && |r| <= 90
      && (forall i :: 0 <= i < |h| && h[i].date == snap.date && |h| <= 90 && DatesUnique(h) ==> r == h[i := snap])
      && ((forall i :: 0 <= i < |h| ==> h[i].date != snap.date) ==>
            |r| == (if |h| < 90 then |h| + 1 else 90) && r[0] == snap && r[1..] == h[..|r| - 1])
      && (|h| <= 90 && DatesUnique(h) ==>
            && DatesUnique(r)
            && (exists k :: 0 <= k < |r| && r[k].date == snap.date)
            && (forall k :: 0 <= k < |r| && r[k].date == snap.date ==> r[k] == snap))
  {
    var r := HistoryUpsert(h, snap);
    match DateIndex(h, snap.date)
    case Some(i) =>
      if |h| <= 90 && DatesUnique(h) {
        assert r == h[i := snap];
        assert r[i].date == snap.date;
      }
    case None =>
      assert r[0] == snap;
      if |h| <= 90 && DatesUnique(h) {
        forall k | 0 < k < |r| ensures r[k] == h[k - 1] {}
      }
  }
}
