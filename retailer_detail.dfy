/** The retailer panel: editing the contact list, saving the retailer's
    own information, the clients carried by the retailer and the status
    breakdown of those clients. */
module RetailerDetail {
  import opened Common
  import opened Seqs
  import opened Types
  import opened Entities

  /** The contact form's fields. */
  datatype ContactForm = ContactForm(name: string, role: string, email: string, phone: string, notes: string)

  /** `handleAddContact`: nothing for a blank name, otherwise one new
      contact at the end. */
  function AddContact(cs: seq<Contact>, form: ContactForm, newId: Id): (r: seq<Contact>)
    ensures Blank(form.name) ==> r == cs
    ensures !Blank(form.name) ==>
      |r| == |cs| + 1 && r[..|cs|] == cs &&
      r[|cs|] == Contact(newId, form.name, form.role, form.email, form.phone, form.notes)
  {
    if Blank(form.name) then cs
    else cs + [Contact(newId, form.name, form.role, form.email, form.phone, form.notes)]
  }

  /** `handleUpdateContact`: nothing without an edited id or with a blank
      name; otherwise each contact with the id takes the form's fields and
      keeps its id. */
  function UpdateContact(cs: seq<Contact>, editingId: Option<Id>, form: ContactForm): (r: seq<Contact>)
    ensures FalsyId(editingId) || Blank(form.name) ==> r == cs
    ensures |r| == |cs| && forall i :: 0 <= i < |cs| ==> r[i].id == cs[i].id
    ensures !FalsyId(editingId) && !Blank(form.name) ==>
      forall i :: 0 <= i < |cs| ==>
        (cs[i].id == editingId.value ==> r[i] == Contact(cs[i].id, form.name, form.role, form.email, form.phone, form.notes)) &&
        (cs[i].id != editingId.value ==> r[i] == cs[i])
  {
    if FalsyId(editingId) || Blank(form.name) then cs
    else
      seq(|cs|, i requires 0 <= i < |cs| =>
        if cs[i].id == editingId.value then Contact(cs[i].id, form.name, form.role, form.email, form.phone, form.notes) else cs[i])
  }

  /** Submitting the same edit twice is submitting it once. */
  lemma UpdateContactIdempotent(cs: seq<Contact>, editingId: Option<Id>, form: ContactForm)
    ensures UpdateContact(UpdateContact(cs, editingId, form), editingId, form) == UpdateContact(cs, editingId, form)
  {
  }

  /** `handleDeleteContact`. */
  function DeleteContact(cs: seq<Contact>, id: Id): (r: seq<Contact>)
    ensures forall c :: c in r <==> c in cs && c.id != id
    ensures IsSubsequence(r, cs)
    ensures |r| == |cs| <==> forall i :: 0 <= i < |cs| ==> cs[i].id != id
  {
    var keep := (c: Contact) => c.id != id;
    FilterIsSubsequence(cs, keep);
    Filter(cs, keep)
  }

  /** Deleting a contact just added, under a fresh id, gives the list back. */
  lemma DeleteUndoesAdd(cs: seq<Contact>, form: ContactForm, newId: Id)
    requires forall i :: 0 <= i < |cs| ==> cs[i].id != newId
    ensures DeleteContact(AddContact(cs, form, newId), newId) == cs
  {
    var keep := (c: Contact) => c.id != newId;
    FilterAllPass(cs, keep);
    if !Blank(form.name) {
      var added := Contact(newId, form.name, form.role, form.email, form.phone, form.notes);
      FilterConcat(cs, [added], keep);
      assert Filter([added], keep) == [];
    }
  }

  /** The panel's copy of a retailer field: `retailer.contacts || []` and
      `retailer.x || ''`. */
  function PanelContacts(x: Retailer): seq<Contact>
  {
    if x.contacts.Some? then x.contacts.value else []
  }

  function PanelText(t: Option<string>): string
  {
    if t.Some? then t.value else ""
  }

  /** `handleSaveRetailerInfo`: the retailer with its contacts, line review
      timing, reset dates and notes replaced. */
  function SaveRetailerInfo(x: Retailer, contacts: seq<Contact>, lineReviewTiming: string, resetDates: string, notes: string): (r: Retailer)
    ensures r.id == x.id && r.name == x.name && r.category == x.category && r.retailerType == x.retailerType
    ensures r.createdAt == x.createdAt && r.updatedAt == x.updatedAt
    ensures r.contacts == Some(contacts) && r.lineReviewTiming == Some(lineReviewTiming)
    ensures r.resetDates == Some(resetDates) && r.notes == Some(notes)
  {
    x.(contacts := Some(contacts), lineReviewTiming := Some(lineReviewTiming), resetDates := Some(resetDates), notes := Some(notes))
  }

  /** Saving without edits gives back a retailer that has all four fields,
      and fills in the missing ones with empty values. */
  lemma SaveUneditedFillsBlanks(x: Retailer)
    ensures var r := SaveRetailerInfo(x, PanelContacts(x), PanelText(x.lineReviewTiming), PanelText(x.resetDates), PanelText(x.notes));
      && (x.contacts.Some? && x.lineReviewTiming.Some? && x.resetDates.Some? && x.notes.Some? ==> r == x)
      && (x.contacts.None? ==> r.contacts == Some([]))
      && (x.notes.None? ==> r.notes == Some(""))
  {
  }

  /** A client carried by the retailer, with its distribution. */
  datatype ClientDistribution = ClientDistribution(client: Client, distribution: Distribution)

  /** `retailerClients`: the retailer's distributions with a status, each
      joined with the first client of its clientId; those whose client is
      missing are dropped. */
  function RetailerClients(ds: seq<Distribution>, cs: seq<Client>, retailerId: Id): seq<ClientDistribution>
    decreases |ds|
  {
    if |ds| == 0 then []
    else
      var rest := RetailerClients(ds[1..], cs, retailerId);
      var d := ds[0];
      if d.retailerId == retailerId && d.status != NoStatus then
        match ClientIndex(cs, d.clientId)
        case Some(i) => [ClientDistribution(cs[i], d)] + rest
        case None => rest
      else rest
  }

  /** The distributions the panel lists: the retailer's, with a status,
      whose client exists. */
  function CarriedDistributions(ds: seq<Distribution>, cs: seq<Client>, retailerId: Id): (r: seq<Distribution>)
    ensures forall d :: d in r <==> d in ds && d.retailerId == retailerId && d.status != NoStatus && ClientIndex(cs, d.clientId).Some?
    ensures IsSubsequence(r, ds)
  {
    var carried := (d: Distribution) => d.retailerId == retailerId && d.status != NoStatus && ClientIndex(cs, d.clientId).Some?;
    FilterIsSubsequence(ds, carried);
    Filter(ds, carried)
  }

  /** The entries are, position by position, the carried distributions in
      store order, each joined with the first client of its id; so every
      entry pairs an active distribution of the retailer with an existing
      client, and every such distribution has exactly one entry. */
  lemma {:induction false} RetailerClientsSpec(ds: seq<Distribution>, cs: seq<Client>, retailerId: Id)
    ensures var r := RetailerClients(ds, cs, retailerId);
      var carried := CarriedDistributions(ds, cs, retailerId);
      && |r| == |carried| <= |ds|
      && (forall k :: 0 <= k < |r| ==>
            && r[k].distribution == carried[k]
            && ClientIndex(cs, r[k].distribution.clientId).Some?
            && r[k].client == cs[ClientIndex(cs, r[k].distribution.clientId).value])
    decreases |ds|
  {
    if |ds| > 0 {
      RetailerClientsSpec(ds[1..], cs, retailerId);
    }
  }

  /** Every entry pairs an active distribution of the retailer with the
      first client of its id; every such distribution whose client exists
      has an entry. */
  lemma RetailerClientsMembers(ds: seq<Distribution>, cs: seq<Client>, retailerId: Id)
    ensures var r := RetailerClients(ds, cs, retailerId);
      && (forall e :: e in r ==>
            && e.distribution in ds
            && e.distribution.retailerId == retailerId
            && e.distribution.status != NoStatus
            && ClientIndex(cs, e.distribution.clientId).Some?
            && e.client == cs[ClientIndex(cs, e.distribution.clientId).value])
      && (forall d :: (d in ds && d.retailerId == retailerId && d.status != NoStatus &&
                       (exists i :: 0 <= i < |cs| && cs[i].id == d.clientId)) ==>
            exists e :: e in r && e.distribution == d)
  {
    var r := RetailerClients(ds, cs, retailerId);
    var carried := CarriedDistributions(ds, cs, retailerId);
    RetailerClientsSpec(ds, cs, retailerId);
    forall e | e in r
      ensures e.distribution in carried
    {
      var k :| 0 <= k < |r| && r[k] == e;
    }
    forall d | d in ds && d.retailerId == retailerId && d.status != NoStatus &&
               (exists i :: 0 <= i < |cs| && cs[i].id == d.clientId)
      ensures exists e :: e in r && e.distribution == d
    {
      assert d in carried;
      var k :| 0 <= k < |carried| && carried[k] == d;
      assert r[k] in r;
    }
  }

  /** How many of the retailer's clients carry status `s`. */
  function Breakdown(rc: seq<ClientDistribution>, s: DistStatus): nat
  {
    |Filter(rc, (e: ClientDistribution) => e.distribution.status == s)|
  }

  /** Entries that all have a status fall into exactly one of the three
      breakdown rows. */
  lemma {:induction false} BreakdownSum(rc: seq<ClientDistribution>)
    requires forall i :: 0 <= i < |rc| ==> rc[i].distribution.status != NoStatus
    ensures Breakdown(rc, Shelves) + Breakdown(rc, ShelvesScreens) + Breakdown(rc, XClient) == |rc|
    decreases |rc|
  {
    if |rc| > 0 {
      assert forall i :: 0 <= i < |rc| - 1 ==> rc[1..][i] == rc[i + 1];
      BreakdownSum(rc[1..]);
    }
  }

  /** The breakdown of a retailer's clients adds up to the number of its
      clients, which is the number of its carried distributions. */
  lemma RetailerBreakdownSum(ds: seq<Distribution>, cs: seq<Client>, retailerId: Id)
    ensures var rc := RetailerClients(ds, cs, retailerId);
      && Breakdown(rc, Shelves) + Breakdown(rc, ShelvesScreens) + Breakdown(rc, XClient) == |rc|
      && |rc| == |CarriedDistributions(ds, cs, retailerId)|
  {
    var rc := RetailerClients(ds, cs, retailerId);
    RetailerClientsSpec(ds, cs, retailerId);
    assert forall i :: 0 <= i < |rc| ==> rc[i] in rc;
    BreakdownSum(rc);
  }

  /** The panel's `getStatusLabel`. */
  function PanelStatusLabel(s: string): (r: string)
    ensures r == "Not Active" <==> s != "shelves" && s != "shelves-screens" && s != "x-client"
  {
    if s == "shelves" then "Shelves Only"
    else if s == "shelves-screens" then "Shelves & Screens"
    else if s == "x-client" then "X-Client"
    else "Not Active"
  }

  /** The three active statuses have labels of their own. */
  lemma PanelLabelsDistinct(a: DistStatus, b: DistStatus)
    ensures a == NoStatus <==> PanelStatusLabel(a.Name()) == "Not Active"
    ensures a != b ==> PanelStatusLabel(a.Name()) != PanelStatusLabel(b.Name())
  {
  }
}
