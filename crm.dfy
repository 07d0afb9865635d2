/**
 * The HubSpot CRM as the handlers see it: an in-memory store of contacts,
 * deals and deal-to-contact links behind the six REST endpoints the code
 * calls. A record's id is the decimal text of its position, so ids are the
 * strings HubSpot hands out and an id that names no record is answered 404.
 *
 * Failures are part of the store: `faults` maps an endpoint to the reply it
 * gives instead of doing its work (a non-2xx status, or no response at all),
 * the same reply for every call during one request.
 */
module Crm {
  import opened Common
  import Decimal

  /** What an HTTP call gives back: a status code, or no response (a timeout). */
  datatype Reply = Status(code: nat) | NoResponse

  /** `res.ok`: a 2xx status. */
  predicate IsOk(r: Reply) {
    r.Status? && 200 <= r.code < 300
  }

  datatype Contact = Contact(email: string, firstname: string, lastname: string, phone: string)

  /** A deal property value: text, or the numeric `amount` (in cents). */
  datatype Prop = Text(s: string) | Amount(cents: int)

  type Props = map<string, Prop>

  datatype Endpoint = ContactSearch | ContactCreate | ContactPatch | DealCreate | DealAssociate | DealPatch

  /** The id of the record at position `i`. */
  function IdOf(i: nat): string {
    Decimal.Show(i)
  }

  /** The record an id names among `n` records, if any. */
  function Resolve(id: string, n: nat): (r: Option<nat>)
    ensures r.Some? ==> r.value < n && IdOf(r.value) == id
  {
    match Decimal.Parse(id)
    case None => None
    case Some(k) =>
      Decimal.ParseIsShow(id, k);
      if k < n then Some(k) else None
  }

  /** Ids resolve exactly: the id of record `i` names record `i` and no other. */
  lemma ResolveIdOf(i: nat, n: nat)
    ensures Resolve(IdOf(i), n) == if i < n then Some(i) else None
  {
    Decimal.ParseShow(i);
  }

  /** The first contact with this email. */
  function FindEmail(contacts: seq<Contact>, email: string): (r: Option<nat>)
    ensures r.Some? ==> r.value < |contacts| && contacts[r.value].email == email
    ensures r.None? <==> forall i :: 0 <= i < |contacts| ==> contacts[i].email != email
    decreases |contacts|
  {
    if |contacts| == 0 then None
    else if contacts[0].email == email then Some(0)
    else match FindEmail(contacts[1..], email)
      case None => None
      case Some(i) => Some(i + 1)
  }

  predicate UniqueEmails(contacts: seq<Contact>) {
    forall i, j :: 0 <= i < |contacts| && 0 <= j < |contacts| && i != j ==> contacts[i].email != contacts[j].email
  }

  /** With unique emails, the contact found is the only one with that email. */
  lemma FindEmailUnique(contacts: seq<Contact>, email: string, i: nat)
    requires UniqueEmails(contacts)
    requires i < |contacts| && contacts[i].email == email
    ensures FindEmail(contacts, email) == Some(i)
  {
  }

  function IdOfFound(r: Option<nat>): Option<string> {
    if r.Some? then Some(IdOf(r.value)) else None
  }

  /** The update a PATCH of a contact makes: the given names and phone, and the email when one is sent. */
  function Patched(old_: Contact, email: Option<string>, firstname: string, lastname: string, phone: string): Contact {
    Contact(if email.Some? then email.value else old_.email, firstname, lastname, phone)
  }

  class Hubspot {
    var contacts: seq<Contact>
    var deals: seq<Props>
    /** Pairs (deal, contact) of record positions. */
    var links: set<(nat, nat)>
    var faults: map<Endpoint, Reply>

    /** No two contacts share an email, every link joins existing records, and a fault is never a success. */
    ghost predicate Valid()
      reads this
    {
      && UniqueEmails(contacts)
      && (forall l :: l in links ==> l.0 < |deals| && l.1 < |contacts|)
      && (forall e :: e in faults ==> !IsOk(faults[e]))
    }

    constructor (contacts: seq<Contact>, deals: seq<Props>, faults: map<Endpoint, Reply>)
      requires UniqueEmails(contacts)
      requires forall e :: e in faults ==> !IsOk(faults[e])
      ensures Valid()
      ensures this.contacts == contacts && this.deals == deals && links == {} && this.faults == faults
    {
      this.contacts := contacts;
      this.deals := deals;
      links := {};
      this.faults := faults;
    }

    /** POST /crm/v3/objects/contacts/search, filtering on `email EQ` with `limit: 1`: the id of the match. */
    method SearchByEmail(email: string) returns (r: Reply, found: Option<string>)
      ensures ContactSearch in faults ==> r == faults[ContactSearch] && found == None
      ensures ContactSearch !in faults ==> r == Status(200) && found == IdOfFound(FindEmail(contacts, email))
    {
      if ContactSearch in faults {
        r, found := faults[ContactSearch], None;
      } else {
        r, found := Status(200), IdOfFound(FindEmail(contacts, email));
      }
    }

    /** POST /crm/v3/objects/contacts: a new contact, or 409 when its email is taken. */
    method CreateContact(c: Contact) returns (r: Reply, id: string)
      requires Valid()
      modifies this
      ensures Valid()
      ensures faults == old(faults) && deals == old(deals) && links == old(links)
      ensures ContactCreate in faults ==> r == faults[ContactCreate] && contacts == old(contacts)
      ensures ContactCreate !in faults && FindEmail(old(contacts), c.email).Some? ==>
        r == Status(409) && contacts == old(contacts)
      ensures ContactCreate !in faults && FindEmail(old(contacts), c.email).None? ==>
        r == Status(201) && contacts == old(contacts) + [c] && id == IdOf(|old(contacts)|)
    {
      id := "";
      if ContactCreate in faults {
        r := faults[ContactCreate];
      } else if FindEmail(contacts, c.email).Some? {
        r := Status(409);
      } else {
        id := IdOf(|contacts|);
        contacts := contacts + [c];
        r := Status(201);
      }
    }

    /**
     * PATCH /crm/v3/objects/contacts/{id}: sets the names and phone, and the
     * email when one is sent; 404 for an unknown id, 409 when the email is another contact's.
     */
    method PatchContact(id: string, email: Option<string>, firstname: string, lastname: string, phone: string) returns (r: Reply)
      requires Valid()
      modifies this
      ensures Valid()
      ensures faults == old(faults) && deals == old(deals) && links == old(links)
      ensures ContactPatch in faults ==> r == faults[ContactPatch] && contacts == old(contacts)
      ensures ContactPatch !in faults && Resolve(id, |old(contacts)|).None? ==>
        r == Status(404) && contacts == old(contacts)
      ensures ContactPatch !in faults && Resolve(id, |old(contacts)|).Some? ==>
        var i := Resolve(id, |old(contacts)|).value;
        if email.Some? && FindEmail(old(contacts), email.value).Some? && FindEmail(old(contacts), email.value) != Some(i)
        then r == Status(409) && contacts == old(contacts)
        else r == Status(200) && contacts == old(contacts)[i := Patched(old(contacts)[i], email, firstname, lastname, phone)]
    {
      var target := Resolve(id, |contacts|);
      if ContactPatch in faults {
        r := faults[ContactPatch];
      } else if target.None? {
        r := Status(404);
      } else if email.Some? && FindEmail(contacts, email.value).Some? && FindEmail(contacts, email.value) != target {
        r := Status(409);
      } else {
        var i := target.value;
        contacts := contacts[i := Patched(contacts[i], email, firstname, lastname, phone)];
        r := Status(200);
      }
    }

    /** POST /crm/v3/objects/deals: a new deal with exactly these properties. */
    method CreateDeal(p: Props) returns (r: Reply, id: string)
      requires Valid()
      modifies this
      ensures Valid()
      ensures faults == old(faults) && contacts == old(contacts) && links == old(links)
      ensures DealCreate in faults ==> r == faults[DealCreate] && deals == old(deals)
      ensures DealCreate !in faults ==> r == Status(201) && deals == old(deals) + [p] && id == IdOf(|old(deals)|)
    {
      id := "";
      if DealCreate in faults {
        r := faults[DealCreate];
      } else {
        id := IdOf(|deals|);
        deals := deals + [p];
        r := Status(201);
      }
    }

    /** PUT /crm/v4/objects/deals/{dealId}/associations/contacts/{contactId}: links the two; 404 if either is unknown. */
    method Associate(dealId: string, contactId: string) returns (r: Reply)
      requires Valid()
      modifies this
      ensures Valid()
      ensures faults == old(faults) && contacts == old(contacts) && deals == old(deals)
      ensures DealAssociate in faults ==> r == faults[DealAssociate] && links == old(links)
      ensures DealAssociate !in faults && (Resolve(dealId, |deals|).None? || Resolve(contactId, |contacts|).None?) ==>
        r == Status(404) && links == old(links)
      ensures DealAssociate !in faults && Resolve(dealId, |deals|).Some? && Resolve(contactId, |contacts|).Some? ==>
        r == Status(200) && links == old(links) + {(Resolve(dealId, |deals|).value, Resolve(contactId, |contacts|).value)}
    {
      var d, c := Resolve(dealId, |deals|), Resolve(contactId, |contacts|);
      if DealAssociate in faults {
        r := faults[DealAssociate];
      } else if d.None? || c.None? {
        r := Status(404);
      } else {
        links := links + {(d.value, c.value)};
        r := Status(200);
      }
    }

    /** PATCH /crm/v3/objects/deals/{dealId}: the given properties overwrite the deal's, the others stay. */
    method PatchDeal(dealId: string, p: Props) returns (r: Reply)
      requires Valid()
      modifies this
      ensures Valid()
      ensures faults == old(faults) && contacts == old(contacts) && links == old(links)
      ensures DealPatch in faults ==> r == faults[DealPatch] && deals == old(deals)
      ensures DealPatch !in faults && Resolve(dealId, |old(deals)|).None? ==> r == Status(404) && deals == old(deals)
      ensures DealPatch !in faults && Resolve(dealId, |old(deals)|).Some? ==>
        var d := Resolve(dealId, |old(deals)|).value;
        r == Status(200) && deals == old(deals)[d := old(deals)[d] + p]
    {
      var d := Resolve(dealId, |deals|);
      if DealPatch in faults {
        r := faults[DealPatch];
      } else if d.None? {
        r := Status(404);
      } else {
        deals := deals[d.value := deals[d.value] + p];
        r := Status(200);
      }
    }
  }

  /** The properties a stage update sends: `{ pipeline, dealstage }`. */
  function StagePatch(pipeline: string, stage: string): (p: Props)
    ensures p.Keys == {"pipeline", "dealstage"}
  {
    map["pipeline" := Text(pipeline), "dealstage" := Text(stage)]
  }

  /** A property patch overwrites the keys it names and keeps every other property. */
  lemma PatchKeepsOthers(m: Props, p: Props, k: string)
    requires k in m && k !in p
    ensures k in m + p && (m + p)[k] == m[k]
  {
  }

  /** Patching twice with the same properties is patching once. */
  lemma PatchIdempotent(m: Props, p: Props)
    ensures (m + p) + p == m + p
  {
  }
}
