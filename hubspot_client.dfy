/**
 * services/hubspotClient.js: contact reconciliation (create, and on failure
 * fall back to a search and a patch), deal creation with the configured
 * pipeline and stage, association, and the stage update, each over the CRM
 * store. `withTimeout` turns a call that gets no response into the error
 * 'Timeout'.
 */
module HubspotClient {
  import opened Common
  import Decimal
  import opened Crm

  /** The errors the client throws. */
  datatype ClientError =
    | Timeout
    | ContactError(status: nat)
    | UpdateContactError(status: nat)
    | CreateDealError(status: nat)
    | AssociationError(status: nat)
    | UpdateDealError(status: nat)

  function Message(e: ClientError): string {
    match e
    case Timeout => "Timeout"
    case ContactError(s) => "HubSpot contact error: " + Decimal.Show(s)
    case UpdateContactError(s) => "HubSpot update contact error: " + Decimal.Show(s)
    case CreateDealError(s) => "HubSpot create deal error: " + Decimal.Show(s)
    case AssociationError(s) => "HubSpot association error: " + Decimal.Show(s)
    case UpdateDealError(s) => "HubSpot update deal error: " + Decimal.Show(s)
  }

  /** `HUBSPOT_PIPELINE_ID` and `HUBSPOT_STAGE_NEW`. */
  datatype DealConfig = DealConfig(pipeline: string, stageNew: string)

  /** The reply the contact-create endpoint gives a store in this state. */
  function CreateReply(faults: map<Endpoint, Reply>, contacts: seq<Contact>, c: Contact): Reply {
    if ContactCreate in faults then faults[ContactCreate]
    else if FindEmail(contacts, c.email).Some? then Status(409)
    else Status(201)
  }

  /**
   * `findContactByEmail(email)`: the id of the first match, None (null) when
   * there is none or the search is answered with a non-2xx status; throws on a timeout.
   */
  method FindContactByEmail(crm: Hubspot, email: string) returns (r: Result<Option<string>, ClientError>)
    requires crm.Valid()
    ensures ContactSearch in crm.faults && crm.faults[ContactSearch] == NoResponse ==> r == Failure(Timeout)
    ensures ContactSearch in crm.faults && crm.faults[ContactSearch].Status? ==> r == Success(None)
    ensures ContactSearch !in crm.faults ==> r == Success(IdOfFound(FindEmail(crm.contacts, email)))
  {
    var reply, found := crm.SearchByEmail(email);
    if reply == NoResponse {
      return Failure(Timeout);
    }
    if !IsOk(reply) {
      return Success(None);
    }
    return Success(found);
  }

  /** `updateContact(id, { firstname, lastname, phone })`: the email is not sent, so it is kept. */
  method UpdateContact(crm: Hubspot, id: string, firstname: string, lastname: string, phone: string) returns (err: Option<ClientError>)
    requires crm.Valid()
    modifies crm
    ensures crm.Valid()
    ensures crm.faults == old(crm.faults) && crm.deals == old(crm.deals) && crm.links == old(crm.links)
    ensures ContactPatch in crm.faults ==>
      crm.contacts == old(crm.contacts) &&
      err == Some(if crm.faults[ContactPatch] == NoResponse then Timeout else UpdateContactError(crm.faults[ContactPatch].code))
    ensures ContactPatch !in crm.faults && Resolve(id, |old(crm.contacts)|).None? ==>
      err == Some(UpdateContactError(404)) && crm.contacts == old(crm.contacts)
    ensures ContactPatch !in crm.faults && Resolve(id, |old(crm.contacts)|).Some? ==>
      var i := Resolve(id, |old(crm.contacts)|).value;
      err == None && crm.contacts == old(crm.contacts)[i := old(crm.contacts)[i].(firstname := firstname, lastname := lastname, phone := phone)]
  {
    var reply := crm.PatchContact(id, None, firstname, lastname, phone);
    if reply == NoResponse {
      return Some(Timeout);
    }
    if !IsOk(reply) {
      return Some(UpdateContactError(reply.code));
    }
    return None;
  }

  /**
   * `createOrUpdateContact({ firstname, lastname, email, phone })`: the id of
   * the contact for this email. A created contact is returned at once; after
   * a 409 an existing contact is returned untouched; after any other failure
   * an existing contact gets the new names and phone; with no contact found the
   * create's status is thrown.
   */
  method CreateOrUpdateContact(crm: Hubspot, c: Contact) returns (r: Result<string, ClientError>)
    requires crm.Valid()
    modifies crm
    ensures crm.Valid()
    ensures crm.faults == old(crm.faults) && crm.deals == old(crm.deals) && crm.links == old(crm.links)
    // Whatever id comes back names a contact with this email.
    ensures r.Success? ==> Resolve(r.value, |crm.contacts|).Some? && crm.contacts[Resolve(r.value, |crm.contacts|).value].email == c.email
    // 2xx: the created contact, with no search.
    ensures CreateReply(crm.faults, old(crm.contacts), c) == Status(201) ==>
      r == Success(IdOf(|old(crm.contacts)|)) && crm.contacts == old(crm.contacts) + [c]
    // No response to the create.
    ensures CreateReply(crm.faults, old(crm.contacts), c) == NoResponse ==>
      r == Failure(Timeout) && crm.contacts == old(crm.contacts)
    // 409 and a match: the existing contact, not updated.
    ensures var found := FindEmail(old(crm.contacts), c.email);
      CreateReply(crm.faults, old(crm.contacts), c) == Status(409) && ContactSearch !in crm.faults && found.Some? ==>
      r == Success(IdOf(found.value)) && crm.contacts == old(crm.contacts)
    // A failed create followed by a search that gets no response.
    ensures var reply := CreateReply(crm.faults, old(crm.contacts), c);
      reply.Status? && !IsOk(reply) && ContactSearch in crm.faults && crm.faults[ContactSearch] == NoResponse ==>
      r == Failure(Timeout) && crm.contacts == old(crm.contacts)
    // A failed create and no contact to fall back on: the create's status is thrown.
    ensures var reply := CreateReply(crm.faults, old(crm.contacts), c);
      reply.Status? && !IsOk(reply) &&
      (if ContactSearch in crm.faults then crm.faults[ContactSearch].Status? else FindEmail(old(crm.contacts), c.email).None?) ==>
      r == Failure(ContactError(reply.code)) && crm.contacts == old(crm.contacts)
    // Any other failed create with a match: the match gets the new names and phone (not the email).
    ensures var reply, found := CreateReply(crm.faults, old(crm.contacts), c), FindEmail(old(crm.contacts), c.email);
      reply.Status? && !IsOk(reply) && reply.code != 409 && ContactSearch !in crm.faults && found.Some? ==>
      if ContactPatch in crm.faults then
        crm.contacts == old(crm.contacts) &&
        r == Failure(if crm.faults[ContactPatch] == NoResponse then Timeout else UpdateContactError(crm.faults[ContactPatch].code))
      else
        r == Success(IdOf(found.value)) &&
        crm.contacts == old(crm.contacts)[found.value := old(crm.contacts)[found.value].(firstname := c.firstname, lastname := c.lastname, phone := c.phone)]
  {
    var res, id := crm.CreateContact(c);
    if res == NoResponse {
      return Failure(Timeout);
    }
    if res == Status(409) {
      var existing := FindContactByEmail(crm, c.email);
      if existing.Failure? {
        return Failure(existing.error);
      }
      if existing.value.Some? {
        ResolveIdOf(FindEmail(crm.contacts, c.email).value, |crm.contacts|);
        return Success(existing.value.value);
      }
    }
    if !IsOk(res) {
      var existing := FindContactByEmail(crm, c.email);
      if existing.Failure? {
        return Failure(existing.error);
      }
      if existing.value.Some? {
        var i := FindEmail(crm.contacts, c.email).value;
        ResolveIdOf(i, |crm.contacts|);
        var err := UpdateContact(crm, existing.value.value, c.firstname, c.lastname, c.phone);
        if err.Some? {
          return Failure(err.value);
        }
        return Success(existing.value.value);
      }
      return Failure(ContactError(res.code));
    }
    ResolveIdOf(|crm.contacts| - 1, |crm.contacts|);
    return Success(id);
  }

  /** The properties `createOrUpdateDeal` sends: the caller's, with `pipeline` and `dealstage` overridden. */
  function DealPayload(props: Props, cfg: DealConfig): (p: Props)
    ensures p.Keys == props.Keys + {"pipeline", "dealstage"}
    ensures p["pipeline"] == Text(cfg.pipeline) && p["dealstage"] == Text(cfg.stageNew)
    ensures forall k :: k in props && k != "pipeline" && k != "dealstage" ==> p[k] == props[k]
  {
    props["pipeline" := Text(cfg.pipeline)]["dealstage" := Text(cfg.stageNew)]
  }

  /** Whatever pipeline and stage the caller puts in, the configured ones win. */
  lemma CallerCannotChooseStage(props: Props, cfg: DealConfig, pipeline: Prop, stage: Prop)
    ensures DealPayload(props["pipeline" := pipeline]["dealstage" := stage], cfg) == DealPayload(props, cfg)
  {
    var q := props["pipeline" := pipeline]["dealstage" := stage];
    assert DealPayload(q, cfg).Keys == DealPayload(props, cfg).Keys;
  }

  /** `createOrUpdateDeal(props)`: always a new deal, never a search. */
  method CreateOrUpdateDeal(crm: Hubspot, props: Props, cfg: DealConfig) returns (r: Result<string, ClientError>)
    requires crm.Valid()
    modifies crm
    ensures crm.Valid()
    ensures crm.faults == old(crm.faults) && crm.contacts == old(crm.contacts) && crm.links == old(crm.links)
    ensures DealCreate !in crm.faults ==>
      r == Success(IdOf(|old(crm.deals)|)) && crm.deals == old(crm.deals) + [DealPayload(props, cfg)]
    ensures DealCreate in crm.faults ==>
      crm.deals == old(crm.deals) &&
      r == Failure(if crm.faults[DealCreate] == NoResponse then Timeout else CreateDealError(crm.faults[DealCreate].code))
  {
    var res, id := crm.CreateDeal(DealPayload(props, cfg));
    if res == NoResponse {
      return Failure(Timeout);
    }
    if !IsOk(res) {
      return Failure(CreateDealError(res.code));
    }
    return Success(id);
  }

  /** `associateDealToContact(dealId, contactId)`. */
  method AssociateDealToContact(crm: Hubspot, dealId: string, contactId: string) returns (err: Option<ClientError>)
    requires crm.Valid()
    modifies crm
    ensures crm.Valid()
    ensures crm.faults == old(crm.faults) && crm.contacts == old(crm.contacts) && crm.deals == old(crm.deals)
    ensures DealAssociate in crm.faults ==>
      crm.links == old(crm.links) &&
      err == Some(if crm.faults[DealAssociate] == NoResponse then Timeout else AssociationError(crm.faults[DealAssociate].code))
    ensures DealAssociate !in crm.faults && (Resolve(dealId, |crm.deals|).None? || Resolve(contactId, |crm.contacts|).None?) ==>
      err == Some(AssociationError(404)) && crm.links == old(crm.links)
    ensures DealAssociate !in crm.faults && Resolve(dealId, |crm.deals|).Some? && Resolve(contactId, |crm.contacts|).Some? ==>
      err == None && crm.links == old(crm.links) + {(Resolve(dealId, |crm.deals|).value, Resolve(contactId, |crm.contacts|).value)}
  {
    var res := crm.Associate(dealId, contactId);
    if res == NoResponse {
      return Some(Timeout);
    }
    if !IsOk(res) {
      return Some(AssociationError(res.code));
    }
    return None;
  }

  /** `updateDealStage(dealId, pipelineId, stageId)`: exactly `pipeline` and `dealstage` are written. */
  method UpdateDealStage(crm: Hubspot, dealId: string, pipeline: string, stage: string) returns (err: Option<ClientError>)
    requires crm.Valid()
    modifies crm
    ensures crm.Valid()
    ensures crm.faults == old(crm.faults) && crm.contacts == old(crm.contacts) && crm.links == old(crm.links)
    ensures DealPatch in crm.faults ==>
      crm.deals == old(crm.deals) &&
      err == Some(if crm.faults[DealPatch] == NoResponse then Timeout else UpdateDealError(crm.faults[DealPatch].code))
    ensures DealPatch !in crm.faults && Resolve(dealId, |old(crm.deals)|).None? ==>
      err == Some(UpdateDealError(404)) && crm.deals == old(crm.deals)
    ensures DealPatch !in crm.faults && Resolve(dealId, |old(crm.deals)|).Some? ==>
      var d := Resolve(dealId, |old(crm.deals)|).value;
      err == None && crm.deals == old(crm.deals)[d := old(crm.deals)[d] + StagePatch(pipeline, stage)]
  {
    var res := crm.PatchDeal(dealId, StagePatch(pipeline, stage));
    if res == NoResponse {
      return Some(Timeout);
    }
    if !IsOk(res) {
      return Some(UpdateDealError(res.code));
    }
    return None;
  }

  /** Updating the stage twice with the same arguments leaves the state the first update left. */
  method UpdateDealStageTwice(crm: Hubspot, dealId: string, pipeline: string, stage: string) returns (e1: Option<ClientError>, e2: Option<ClientError>)
    requires crm.Valid()
    modifies crm
    ensures crm.Valid()
    ensures e1 == e2
    ensures crm.contacts == old(crm.contacts) && crm.links == old(crm.links)
    ensures DealPatch in crm.faults || Resolve(dealId, |old(crm.deals)|).None? ==> crm.deals == old(crm.deals)
    ensures DealPatch !in crm.faults && Resolve(dealId, |old(crm.deals)|).Some? ==>
      var d := Resolve(dealId, |old(crm.deals)|).value;
      crm.deals == old(crm.deals)[d := old(crm.deals)[d] + StagePatch(pipeline, stage)]
  {
    e1 := UpdateDealStage(crm, dealId, pipeline, stage);
    ghost var after := crm.deals;
    e2 := UpdateDealStage(crm, dealId, pipeline, stage);
    if DealPatch !in crm.faults && Resolve(dealId, |old(crm.deals)|).Some? {
      var d := Resolve(dealId, |old(crm.deals)|).value;
      PatchIdempotent(old(crm.deals)[d], StagePatch(pipeline, stage));
      assert crm.deals == after;
    }
  }
}
