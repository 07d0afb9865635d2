/**
 * The `handler` of functions/accept.js: the link in the quote e-mail arrives
 * with the deal id `d` and the token `t`; only a valid token minted for that
 * very deal moves the deal to the accepted stage, through the file's own
 * `updateDealStage`. The HTML pages are reduced to which page is shown.
 */
module AcceptHandler {
  import opened Common
  import opened Crm
  import opened AcceptToken
  import LeadRules

  /** `HUBSPOT_PIPELINE_ID`, `HUBSPOT_STAGE_ACCEPTED` and `ACCEPT_TOKEN_SECRET`; "" stands for unset. */
  datatype AcceptEnv = AcceptEnv(pipeline: string, stageAccepted: string, acceptSecret: string)

  /** What the checks before the CRM call decide. */
  datatype Decision = MissingParams | BadToken | VerifyThrows | Proceed

  /**
   * The parameter and token checks, with the query parameters read as
   * `?.d || ''` and `?.t || ''`: both must be non-empty, then the token must
   * verify and carry exactly `d` as its deal id. An exception out of
   * verification is kept apart, as the handler's `catch` turns it into a 500.
   */
  function Decide(d: string, t: string, secret: string, now: int, prim: Primitives): (r: Decision)
    ensures r == MissingParams <==> d == "" || t == ""
    ensures r == VerifyThrows <==> d != "" && t != "" && VerifyAcceptToken(Some(t), secret, now, prim).Throws?
    ensures r == Proceed <==>
      && d != "" && t != ""
      && VerifyAcceptToken(Some(t), secret, now, prim).Valid?
      && VerifyAcceptToken(Some(t), secret, now, prim).payload.dealId == Some(d)
  {
    if d == "" || t == "" then MissingParams
    else
      match VerifyAcceptToken(Some(t), secret, now, prim)
      case Throws => VerifyThrows
      case Invalid(_) => BadToken
      case Valid(payload) => if payload.dealId == Some(d) then Proceed else BadToken
  }

  /** The page the handler renders. */
  datatype Page = InvalidRequest | InvalidTokenPage | QuoteAccepted | SomethingWentWrong

  datatype AcceptResponse = AcceptResponse(statusCode: nat, page: Page)

  /**
   * `updateDealStage(dealId, pipelineId, stageId)` of this file: one PATCH of
   * `pipeline` and `dealstage`; a non-2xx reply (an unknown deal included) throws.
   */
  method UpdateDealStage(crm: Hubspot, dealId: string, pipeline: string, stage: string) returns (ok: bool)
    requires crm.Valid()
    modifies crm
    ensures crm.Valid()
    ensures crm.faults == old(crm.faults) && crm.contacts == old(crm.contacts) && crm.links == old(crm.links)
    ensures ok <==> DealPatch !in crm.faults && Resolve(dealId, |old(crm.deals)|).Some?
    ensures ok ==>
      var k := Resolve(dealId, |old(crm.deals)|).value;
      crm.deals == old(crm.deals)[k := old(crm.deals)[k] + StagePatch(pipeline, stage)]
    ensures !ok ==> crm.deals == old(crm.deals)
  {
    var reply := crm.PatchDeal(dealId, StagePatch(pipeline, stage));
    ok := IsOk(reply);
  }

  /**
   * `handler(event)` at time `now`. Both 400 pages and the 500 of a throwing
   * verification come before any CRM call; the only write is the stage
   * update, and it happens only for a valid token minted for `d`.
   */
  method Handle(crm: Hubspot, d: string, t: string, env: AcceptEnv, now: int, prim: Primitives) returns (resp: AcceptResponse)
    requires crm.Valid()
    modifies crm
    ensures crm.Valid()
    ensures crm.faults == old(crm.faults) && crm.contacts == old(crm.contacts) && crm.links == old(crm.links)
    ensures var decision := Decide(d, t, SecretFrom(env.acceptSecret), now, prim);
      && (decision == MissingParams ==> resp == AcceptResponse(400, InvalidRequest))
      && (decision == BadToken ==> resp == AcceptResponse(400, InvalidTokenPage))
      && (decision == VerifyThrows ==> resp == AcceptResponse(500, SomethingWentWrong))
      && (decision != Proceed ==> crm.deals == old(crm.deals))
      && (decision == Proceed && resp.statusCode != 200 ==> resp == AcceptResponse(500, SomethingWentWrong))
    ensures resp.statusCode == 200 <==>
      && Decide(d, t, SecretFrom(env.acceptSecret), now, prim) == Proceed
      && DealPatch !in crm.faults && Resolve(d, |old(crm.deals)|).Some?
    ensures resp.statusCode == 200 ==>
      var k := Resolve(d, |old(crm.deals)|).value;
      && resp.page == QuoteAccepted
      && crm.deals == old(crm.deals)[k := old(crm.deals)[k] + StagePatch(env.pipeline, env.stageAccepted)]
    ensures resp.statusCode != 200 ==> crm.deals == old(crm.deals)
  {
    var decision := Decide(d, t, SecretFrom(env.acceptSecret), now, prim);
    if decision == MissingParams {
      return AcceptResponse(400, InvalidRequest);
    }
    if decision == VerifyThrows {
      return AcceptResponse(500, SomethingWentWrong);
    }
    if decision == BadToken {
      return AcceptResponse(400, InvalidTokenPage);
    }
    var ok := UpdateDealStage(crm, d, env.pipeline, env.stageAccepted);
    if !ok {
      return AcceptResponse(500, SomethingWentWrong);
    }
    return AcceptResponse(200, QuoteAccepted);
  }

  /**
   * Cross-deal replay is refused: a token minted for deal `a` never lets the
   * handler act on another deal `b`, whatever the clock says.
   */
  lemma CrossDealRefused(a: string, b: string, ttlSec: Option<int>, secret: string, now0: int, now: int, prim: Primitives)
    requires ParsesBack(prim.json)
    requires a != b && b != ""
    ensures Decide(b, SignAcceptToken(a, ttlSec, secret, now0, prim), secret, now, prim) == BadToken
  {
    SignThenVerify(a, ttlSec, secret, now0, now, prim);
    Minted(a, ttlSec, secret, now0, prim);
    Refused(b, SignAcceptToken(a, ttlSec, secret, now0, prim), secret, now, prim);
  }

  /** Once the clock is past `exp` (a non-zero one), the link is refused even for its own deal. */
  lemma ExpiredRefused(dealId: string, ttlSec: Option<int>, secret: string, now0: int, now: int, prim: Primitives)
    requires ParsesBack(prim.json)
    requires dealId != ""
    requires now0 + Ttl(ttlSec) != 0 && now > now0 + Ttl(ttlSec)
    ensures Decide(dealId, SignAcceptToken(dealId, ttlSec, secret, now0, prim), secret, now, prim) == BadToken
  {
    assert IsExpired(MintedClaims(dealId, ttlSec, now0), now);
    SignThenVerify(dealId, ttlSec, secret, now0, now, prim);
    Minted(dealId, ttlSec, secret, now0, prim);
    Refused(dealId, SignAcceptToken(dealId, ttlSec, secret, now0, prim), secret, now, prim);
  }

  /** A token that is rejected, or valid for another deal, is refused with the invalid-token page. */
  lemma Refused(d: string, t: string, secret: string, now: int, prim: Primitives)
    requires d != "" && '.' in t
    requires var v := VerifyAcceptToken(Some(t), secret, now, prim);
      v.Invalid? || (v.Valid? && v.payload.dealId != Some(d))
    ensures Decide(d, t, secret, now, prim) == BadToken
  {
  }

  /**
   * The pipeline end to end: the link of the quote e-mail for a deal, presented
   * within twelve hours to an accept handler sharing the lead handler's secret,
   * is accepted for that deal.
   */
  lemma QuoteLinkProceeds(dealId: string, leadEnv: LeadRules.LeadEnv, env: AcceptEnv, now0: int, now: int, prim: Primitives)
    requires ParsesBack(prim.json)
    requires env.acceptSecret == leadEnv.acceptSecret
    requires dealId != "" && now <= now0 + LeadRules.TokenTtl
    ensures Decide(dealId, LeadRules.EmailToken(dealId, leadEnv, now0, prim), SecretFrom(env.acceptSecret), now, prim) == Proceed
  {
    var t := LeadRules.EmailToken(dealId, leadEnv, now0, prim);
    LeadRules.EmailTokenVerifies(dealId, leadEnv, now0, now, prim);
    assert '.' in t;
  }

  /**
   * Nothing records that a link was used: presenting it a second time, at a
   * moment its verification decides alike, answers the same and leaves the
   * deal as after the first visit.
   */
  method AcceptTwice(crm: Hubspot, d: string, t: string, env: AcceptEnv, now1: int, now2: int, prim: Primitives)
    returns (r1: AcceptResponse, r2: AcceptResponse)
    requires crm.Valid()
    requires Decide(d, t, SecretFrom(env.acceptSecret), now1, prim) == Decide(d, t, SecretFrom(env.acceptSecret), now2, prim)
    modifies crm
    ensures crm.Valid()
    ensures r1 == r2
    ensures r1.statusCode == 200 ==>
      Resolve(d, |old(crm.deals)|).Some? &&
      var k := Resolve(d, |old(crm.deals)|).value;
      crm.deals == old(crm.deals)[k := old(crm.deals)[k] + StagePatch(env.pipeline, env.stageAccepted)]
    ensures r1.statusCode != 200 ==> crm.deals == old(crm.deals)
  {
    r1 := Handle(crm, d, t, env, now1, prim);
    assert |crm.deals| == |old(crm.deals)|;
    ghost var k := Resolve(d, |crm.deals|);
    r2 := Handle(crm, d, t, env, now2, prim);
    if r1.statusCode == 200 {
      PatchIdempotent(old(crm.deals)[k.value], StagePatch(env.pipeline, env.stageAccepted));
    }
  }
}
