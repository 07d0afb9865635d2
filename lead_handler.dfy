/**
 * The `handler` of functions/lead.js and the HubSpot helpers it defines for
 * itself: validate, price, upsert the contact, create the deal, associate,
 * confirm the stage, e-mail the quote. A failure answers 500 and undoes nothing.
 * Sending the e-mail is a foreign call; whether it goes through is the
 * parameter `delivered`, and the e-mail attempted is returned.
 */
module LeadHandler {
  import opened Common
  import opened Crm
  import opened LeadRules
  import QuoteEngine
  import AcceptToken

  /** The HubSpot call a failure came from. */
  datatype Step = SearchContact | CreateContact | UpdateContact | CreateDeal | Associate | UpdateStage

  /** Why the handler answered 500: the body was not JSON, the price lookup threw, a HubSpot call failed, or the e-mail did. */
  datatype Cause = BadJson | QuoteFailed(error: QuoteEngine.QuoteError) | HubspotFailed(step: Step, reply: Reply) | EmailFailed

  datatype Body = Rejected(error: string) | Created(dealId: string, contactId: string) | ServerError(cause: Cause)

  datatype Response = Response(statusCode: nat, body: Body)

  /** The HubSpot calls `upsertContact` makes. */
  predicate UpsertCause(c: Cause) {
    c.HubspotFailed? && c.step in {SearchContact, CreateContact, UpdateContact}
  }

  /** A 500 from `upsertContact`. */
  predicate UpsertFailed(b: Body) {
    b.ServerError? && UpsertCause(b.cause)
  }

  /**
   * The contacts `after` are `before` with `c` upserted by its email: the
   * contact holding that email was overwritten in place, or there was none and
   * `c` was appended. No other contact changed.
   */
  predicate Upserted(before: seq<Contact>, after: seq<Contact>, c: Contact) {
    match FindEmail(before, c.email)
    case Some(i) => after == before[i := c]
    case None => after == before + [c]
  }

  /** Where an upsert by `email` leaves its contact: at the position of the contact holding that email, or appended. */
  function UpsertPosition(before: seq<Contact>, email: string): (k: nat)
    ensures k <= |before|
    ensures k < |before| <==> FindEmail(before, email).Some?
  {
    match FindEmail(before, email)
    case Some(i) => i
    case None => |before|
  }

  /**
   * The contacts after a lead `f` answered `resp`: unchanged when `upsertContact`
   * failed, and otherwise holding the submission, upserted by its email, whatever failed later.
   */
  predicate ContactKept(before: seq<Contact>, after: seq<Contact>, f: Fields, resp: Response) {
    && (UpsertFailed(resp.body) ==> after == before)
    && (!UpsertFailed(resp.body) ==> Upserted(before, after, LeadContact(f)))
    && (resp.body.Created? ==> resp.body.contactId == IdOf(UpsertPosition(before, Lookup(f, "email"))))
  }

  /** A 500 from the association step. */
  predicate AssociateFailed(b: Body) {
    b.ServerError? && b.cause.HubspotFailed? && b.cause.step == Associate
  }

  /** The request body: JSON that parsed to string fields (an absent body is `{}`), or text JSON.parse rejects. */
  datatype Payload = Parsed(fields: Fields) | Unparseable

  datatype Request = Request(httpMethod: string, body: Payload)

  /** `findContactByEmail(email)` of this file: a non-2xx search throws, unlike the client's. */
  method FindContactByEmail(crm: Hubspot, email: string) returns (r: Result<Option<string>, Reply>)
    requires crm.Valid()
    ensures ContactSearch in crm.faults ==> r == Failure(crm.faults[ContactSearch])
    ensures ContactSearch !in crm.faults ==> r == Success(IdOfFound(FindEmail(crm.contacts, email)))
  {
    var reply, found := crm.SearchByEmail(email);
    if !IsOk(reply) {
      return Failure(reply);
    }
    return Success(found);
  }

  /**
   * `upsertContact`: when the search finds the email, that contact is
   * overwritten with all four submitted fields; otherwise exactly one contact is created.
   */
  method UpsertContact(crm: Hubspot, c: Contact) returns (r: Result<string, Cause>)
    requires crm.Valid()
    modifies crm
    ensures crm.Valid()
    ensures crm.faults == old(crm.faults) && crm.deals == old(crm.deals) && crm.links == old(crm.links)
    ensures r.Success? ==> Resolve(r.value, |crm.contacts|).Some? && crm.contacts[Resolve(r.value, |crm.contacts|).value] == c
    ensures r.Failure? ==> crm.contacts == old(crm.contacts) && UpsertCause(r.error)
    ensures r.Success? ==> Upserted(old(crm.contacts), crm.contacts, c) && r.value == IdOf(UpsertPosition(old(crm.contacts), c.email))
    ensures ContactSearch in crm.faults ==> r == Failure(HubspotFailed(SearchContact, crm.faults[ContactSearch]))
    ensures ContactSearch !in crm.faults && FindEmail(old(crm.contacts), c.email).Some? ==>
      var i := FindEmail(old(crm.contacts), c.email).value;
      if ContactPatch in crm.faults then r == Failure(HubspotFailed(UpdateContact, crm.faults[ContactPatch]))
      else r == Success(IdOf(i)) && crm.contacts == old(crm.contacts)[i := c]
    ensures ContactSearch !in crm.faults && FindEmail(old(crm.contacts), c.email).None? ==>
      if ContactCreate in crm.faults then r == Failure(HubspotFailed(CreateContact, crm.faults[ContactCreate]))
      else r == Success(IdOf(|old(crm.contacts)|)) && crm.contacts == old(crm.contacts) + [c]
  {
    var existing := FindContactByEmail(crm, c.email);
    if existing.Failure? {
      return Failure(HubspotFailed(SearchContact, existing.error));
    }
    if existing.value.Some? {
      var i := FindEmail(crm.contacts, c.email).value;
      ResolveIdOf(i, |crm.contacts|);
      var reply := crm.PatchContact(existing.value.value, Some(c.email), c.firstname, c.lastname, c.phone);
      if !IsOk(reply) {
        return Failure(HubspotFailed(UpdateContact, reply));
      }
      return Success(existing.value.value);
    }
    var reply, id := crm.CreateContact(c);
    if !IsOk(reply) {
      return Failure(HubspotFailed(CreateContact, reply));
    }
    ResolveIdOf(|crm.contacts| - 1, |crm.contacts|);
    return Success(id);
  }

  /** The stored CRM state is as it was. */
  twostate predicate CrmUnchanged(crm: Hubspot)
    reads crm
  {
    crm.contacts == old(crm.contacts) && crm.deals == old(crm.deals) && crm.links == old(crm.links)
  }

  /**
   * The three deal steps, once the contact `contactId` (at position `k`) is in
   * place: create the deal, associate it with the contact, patch its stage. The
   * first failure stops the sequence; the contacts are never touched.
   */
  method FileDeal(crm: Hubspot, contactId: string, ghost k: nat, props: Props, stage: Props) returns (r: Result<string, Cause>)
    requires crm.Valid() && Resolve(contactId, |crm.contacts|) == Some(k)
    modifies crm
    ensures crm.Valid() && crm.faults == old(crm.faults) && crm.contacts == old(crm.contacts)
    ensures r.Failure? ==> r.error.HubspotFailed? && r.error.step in {CreateDeal, Associate, UpdateStage}
    ensures r.Failure? && r.error.step != UpdateStage ==> crm.links == old(crm.links)
    ensures |old(crm.deals)| <= |crm.deals| <= |old(crm.deals)| + 1 && crm.deals[..|old(crm.deals)|] == old(crm.deals)
    ensures old(crm.links) <= crm.links <= old(crm.links) + {(|old(crm.deals)|, k)}
    ensures r.Failure? && r.error.step == UpdateStage ==> crm.links == old(crm.links) + {(|old(crm.deals)|, k)}
    ensures r.Failure? && r.error.step == CreateDeal ==> crm.deals == old(crm.deals)
    ensures r.Failure? && r.error.step != CreateDeal ==> |crm.deals| == |old(crm.deals)| + 1 && crm.deals[|old(crm.deals)|] == props
    ensures r.Success? ==>
      && r.value == IdOf(|old(crm.deals)|)
      && |crm.deals| == |old(crm.deals)| + 1
      && crm.deals[|old(crm.deals)|] == props + stage
      && (|old(crm.deals)|, k) in crm.links
    ensures crm.faults == map[] ==> r.Success?
  {
    var dealReply, dealId := crm.CreateDeal(props);
    if !IsOk(dealReply) {
      return Failure(HubspotFailed(CreateDeal, dealReply));
    }
    ghost var d := |crm.deals| - 1;
    ResolveIdOf(d, |crm.deals|);
    var linkReply := crm.Associate(dealId, contactId);
    if !IsOk(linkReply) {
      return Failure(HubspotFailed(Associate, linkReply));
    }
    var stageReply := crm.PatchDeal(dealId, stage);
    if !IsOk(stageReply) {
      return Failure(HubspotFailed(UpdateStage, stageReply));
    }
    return Success(dealId);
  }

  /**
   * The four HubSpot steps in order: upsert the contact, create the deal,
   * associate the two, patch the deal's stage. The first failure stops the
   * sequence and leaves in place whatever the earlier steps wrote. On success
   * the ids of the deal and the contact come back, and `k` is the contact's position.
   */
  method RecordLead(crm: Hubspot, c: Contact, props: Props, stage: Props) returns (r: Result<(string, string), Cause>, ghost k: nat)
    requires crm.Valid()
    modifies crm
    ensures crm.Valid() && crm.faults == old(crm.faults)
    ensures r.Failure? ==> r.error.HubspotFailed?
    ensures r.Failure? && r.error.step != UpdateStage ==> crm.links == old(crm.links)
    ensures |old(crm.deals)| <= |crm.deals| <= |old(crm.deals)| + 1 && crm.deals[..|old(crm.deals)|] == old(crm.deals)
    ensures old(crm.links) <= crm.links
    ensures forall l :: l in crm.links && l !in old(crm.links) ==> l.0 == |old(crm.deals)|
    ensures r.Failure? && |crm.deals| > |old(crm.deals)| ==> crm.deals[|old(crm.deals)|] == props
    ensures r.Failure? && UpsertCause(r.error) ==> crm.contacts == old(crm.contacts)
    ensures !(r.Failure? && UpsertCause(r.error)) ==>
      Upserted(old(crm.contacts), crm.contacts, c) && k == UpsertPosition(old(crm.contacts), c.email)
    ensures r.Failure? && r.error.step in {SearchContact, CreateContact, UpdateContact, CreateDeal} ==> crm.deals == old(crm.deals)
    ensures r.Failure? && r.error.step in {Associate, UpdateStage} ==> |crm.deals| == |old(crm.deals)| + 1
    ensures r.Failure? && r.error.step == UpdateStage ==> crm.links == old(crm.links) + {(|old(crm.deals)|, k)}
    ensures r.Success? ==>
      && r.value.0 == IdOf(|old(crm.deals)|) && r.value.1 == IdOf(k)
      && |crm.deals| == |old(crm.deals)| + 1
      && crm.deals[|old(crm.deals)|] == props + stage
      && k < |crm.contacts| && crm.contacts[k] == c && (|old(crm.deals)|, k) in crm.links
    ensures crm.faults == map[] ==> r.Success?
  {
    k := 0;
    var contact := UpsertContact(crm, c);
    if contact.Failure? {
      return Failure(contact.error), k;
    }
    var contactId := contact.value;
    k := Resolve(contactId, |crm.contacts|).value;
    var deal := FileDeal(crm, contactId, k, props, stage);
    if deal.Failure? {
      return Failure(deal.error), k;
    }
    return Success((deal.value, contactId)), k;
  }

  /**
   * What a lead `f` quoted at `amount` may do to the CRM once it gets past
   * validation and pricing: existing deals are never touched, at most one deal
   * is added and it carries the lead's properties, and new links only join that deal.
   */
  twostate predicate AtMostOneDeal(crm: Hubspot, f: Fields, amount: int, env: LeadEnv)
    reads crm
  {
    && |old(crm.deals)| <= |crm.deals| <= |old(crm.deals)| + 1 && crm.deals[..|old(crm.deals)|] == old(crm.deals)
    && old(crm.links) <= crm.links
    && (forall l :: l in crm.links && l !in old(crm.links) ==> l.0 == |old(crm.deals)|)
    && (|crm.deals| > |old(crm.deals)| ==> crm.deals[|old(crm.deals)|] == DealProps(f, LeadName(f), amount, env))
  }

  /**
   * The lead's deal was added and linked to a contact holding the submitted
   * data, and the quote e-mail for that deal was attempted.
   */
  twostate predicate DealLinked(crm: Hubspot, f: Fields, quote: QuoteEngine.Quote, env: LeadEnv, now: int,
                                prim: AcceptToken.Primitives, new sent: Option<QuoteEmail>)
    reads crm
  {
    && |crm.deals| == |old(crm.deals)| + 1
    && (exists k :: 0 <= k < |crm.contacts| && crm.contacts[k] == LeadContact(f) && (|old(crm.deals)|, k) in crm.links)
    && sent == Some(EmailFor(f, LeadName(f), quote.amount, quote.currency, IdOf(|old(crm.deals)|), env, now, prim))
  }

  /**
   * The HubSpot steps and the e-mail: record the contact `c` and a deal with
   * the properties `props`, confirmed with `stage`, then send the e-mail
   * `letter` writes for the new deal's id. The e-mail is attempted only once
   * every HubSpot step has succeeded.
   */
  method Process(crm: Hubspot, c: Contact, props: Props, stage: Props, letter: string -> QuoteEmail, delivered: bool)
      returns (resp: Response, sent: Option<QuoteEmail>, ghost k: nat)
    requires crm.Valid()
    modifies crm
    ensures crm.Valid() && crm.faults == old(crm.faults)
    ensures (resp.statusCode == 200 && resp.body.Created?) || (resp.statusCode == 500 && resp.body.ServerError?)
    ensures resp.body.ServerError? ==> resp.body.cause.HubspotFailed? || resp.body.cause == EmailFailed
    ensures |old(crm.deals)| <= |crm.deals| <= |old(crm.deals)| + 1 && crm.deals[..|old(crm.deals)|] == old(crm.deals)
    ensures old(crm.links) <= crm.links
    ensures forall l :: l in crm.links && l !in old(crm.links) ==> l.0 == |old(crm.deals)|
    ensures |crm.deals| > |old(crm.deals)| ==> crm.deals[|old(crm.deals)|] in {props, props + stage}
    ensures resp.body.ServerError? && resp.body.cause.HubspotFailed? ==> sent.None?
    ensures UpsertFailed(resp.body) ==> crm.contacts == old(crm.contacts)
    ensures !UpsertFailed(resp.body) ==> Upserted(old(crm.contacts), crm.contacts, c) && k == UpsertPosition(old(crm.contacts), c.email)
    ensures AssociateFailed(resp.body) ==> |crm.deals| == |old(crm.deals)| + 1 && crm.links == old(crm.links)
    ensures resp.statusCode == 200 || resp.body == ServerError(EmailFailed) ==>
      && |crm.deals| == |old(crm.deals)| + 1
      && sent == Some(letter(IdOf(|old(crm.deals)|)))
      && k < |crm.contacts| && crm.contacts[k] == c && (|old(crm.deals)|, k) in crm.links
    ensures resp.statusCode == 200 ==> resp.body.dealId == IdOf(|old(crm.deals)|) && resp.body.contactId == IdOf(k) && delivered
    ensures resp.body == ServerError(EmailFailed) ==> !delivered
    ensures crm.faults == map[] ==> resp.statusCode == 200 || resp.body == ServerError(EmailFailed)
  {
    var recorded;
    recorded, k := RecordLead(crm, c, props, stage);
    if recorded.Failure? {
      return Response(500, ServerError(recorded.error)), None, k;
    }
    var (dealId, contactId) := recorded.value;
    sent := Some(letter(dealId));
    if !delivered {
      return Response(500, ServerError(EmailFailed)), sent, k;
    }
    return Response(200, Created(dealId, contactId)), sent, k;
  }

  /**
   * `handler` past validation and pricing, for the lead `f` quoted at `quote`:
   * the contact from the submission, the deal with the lead's properties, the
   * stage confirmed, and the quote e-mail carrying the accept link for the new deal.
   */
  method ProcessLead(crm: Hubspot, f: Fields, quote: QuoteEngine.Quote, env: LeadEnv, now: int,
                     prim: AcceptToken.Primitives, delivered: bool) returns (resp: Response, sent: Option<QuoteEmail>)
    requires crm.Valid()
    modifies crm
    ensures crm.Valid() && crm.faults == old(crm.faults)
    ensures FromCrm(resp)
    ensures PricedOutcome(crm, f, quote, env, now, prim, delivered, resp, sent)
  {
    var name := LeadName(f);
    var props := DealProps(f, name, quote.amount, env);
    var letter := id => EmailFor(f, name, quote.amount, quote.currency, id, env, now, prim);
    StageConfirmIsNoOp(f, name, quote.amount, env);
    ghost var d := |crm.deals|;
    ghost var k;
    resp, sent, k := Process(crm, LeadContact(f), props, StagePatch(env.pipeline, env.stageQuoteSent), letter, delivered);
    if |crm.deals| > d {
      assert crm.deals[d] == props;
    }
    if resp.statusCode == 200 {
      assert sent == Some(EmailFor(f, name, quote.amount, quote.currency, IdOf(d), env, now, prim));
    }
  }

  /**
   * What `handler` promises for a lead quoted at `quote`: at most one deal,
   * filed with the lead's properties; a failed association leaves the deal
   * unlinked; a 200 names the new deal, linked to the contact, with the quote
   * e-mail for it sent; and with HubSpot and the mailer healthy the answer is 200.
   */
  twostate predicate PricedOutcome(crm: Hubspot, f: Fields, quote: QuoteEngine.Quote, env: LeadEnv, now: int,
                                   prim: AcceptToken.Primitives, delivered: bool, new resp: Response, new sent: Option<QuoteEmail>)
    reads crm
  {
    && AtMostOneDeal(crm, f, quote.amount, env)
    && ContactKept(old(crm.contacts), crm.contacts, f, resp)
    && (AssociateFailed(resp.body) ==> |crm.deals| == |old(crm.deals)| + 1 && crm.links == old(crm.links))
    && (resp.statusCode == 200 ==>
          resp.body.Created? && resp.body.dealId == IdOf(|old(crm.deals)|) && DealLinked(crm, f, quote, env, now, prim, sent))
    && (crm.faults == map[] && delivered ==> resp.statusCode == 200)
  }

  /** Answers that come from the HubSpot steps or the e-mail, reached only past validation and pricing. */
  predicate FromCrm(resp: Response) {
    resp.statusCode == 200 || (resp.body.ServerError? && (resp.body.cause.HubspotFailed? || resp.body.cause == EmailFailed))
  }

  /**
   * What `handler` does with a parsed submission `f`: a 400 naming the first
   * problem, a 500 when pricing throws, both before any CRM call; otherwise
   * the HubSpot steps and the e-mail. Existing deals are never touched, at
   * most one deal, the lead's, is added, and new links only join it; nothing
   * is rolled back; on success the new deal is linked to a contact holding
   * the submitted data and the quote e-mail went out; with no HubSpot fault
   * and a working mail service, every acceptable, priced lead succeeds.
   */
  twostate predicate LeadOutcome(crm: Hubspot, f: Fields, pricing: QuoteEngine.Pricing, env: LeadEnv, now: int,
                                 prim: AcceptToken.Primitives, delivered: bool, new resp: Response, new sent: Option<QuoteEmail>)
    reads crm
  {
    && (ValidateLead(f).Some? ==> resp == Response(400, Rejected(ValidateLead(f).value)))
    && (Acceptable(f) && LeadQuote(pricing, f).Failure? ==>
          resp == Response(500, ServerError(QuoteFailed(LeadQuote(pricing, f).error))))
    && (FromCrm(resp) ==> Acceptable(f) && LeadQuote(pricing, f).Success?)
    && (!(Acceptable(f) && LeadQuote(pricing, f).Success?) ==> CrmUnchanged(crm) && sent.None?)
    && (Acceptable(f) && LeadQuote(pricing, f).Success? ==>
          PricedOutcome(crm, f, LeadQuote(pricing, f).value, env, now, prim, delivered, resp, sent))
  }

  /** `handler` once the body has parsed to the fields `f`: validate, price, then the HubSpot steps and the e-mail. */
  method HandleFields(crm: Hubspot, f: Fields, pricing: QuoteEngine.Pricing, env: LeadEnv, now: int,
                      prim: AcceptToken.Primitives, delivered: bool) returns (resp: Response, sent: Option<QuoteEmail>)
    requires crm.Valid()
    modifies crm
    ensures crm.Valid() && crm.faults == old(crm.faults)
    ensures LeadOutcome(crm, f, pricing, env, now, prim, delivered, resp, sent)
  {
    var invalid := ValidateLead(f);
    if invalid.None? {
      var quoted := LeadQuote(pricing, f);
      if quoted.Success? {
        resp, sent := ProcessLead(crm, f, quoted.value, env, now, prim, delivered);
        return;
      }
      resp := Response(500, ServerError(QuoteFailed(quoted.error)));
    } else {
      resp := Response(400, Rejected(invalid.value));
    }
    sent := None;
  }

  /** `handler(event)` for a lead submission, with the clock at `now`. */
  method Handle(crm: Hubspot, req: Request, pricing: QuoteEngine.Pricing, env: LeadEnv, now: int,
                prim: AcceptToken.Primitives, delivered: bool) returns (resp: Response, sent: Option<QuoteEmail>)
    requires crm.Valid()
    modifies crm
    ensures crm.Valid() && crm.faults == old(crm.faults)
    ensures req.httpMethod != "POST" ==> resp == Response(400, Rejected("POST only")) && CrmUnchanged(crm) && sent.None?
    ensures req.httpMethod == "POST" && req.body.Unparseable? ==>
      resp == Response(500, ServerError(BadJson)) && CrmUnchanged(crm) && sent.None?
    ensures req.httpMethod == "POST" && req.body.Parsed? ==>
      LeadOutcome(crm, req.body.fields, pricing, env, now, prim, delivered, resp, sent)
  {
    if req.httpMethod != "POST" {
      return Response(400, Rejected("POST only")), None;
    }
    if req.body.Unparseable? {
      return Response(500, ServerError(BadJson)), None;
    }
    resp, sent := HandleFields(crm, req.body.fields, pricing, env, now, prim, delivered);
  }
}
