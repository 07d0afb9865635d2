/**
 * The pure parts of functions/lead.js: the server-side validation of a
 * submitted lead, the properties of the deal it creates, and the fields of the
 * quote e-mail (the price text and the accept link).
 */
module LeadRules {
  import opened Common
  import Decimal
  import Uri
  import opened Crm
  import Formatters
  import AcceptToken
  import QuoteEngine

  /** A parsed JSON body whose values are strings; a key that is absent reads as undefined. */
  type Fields = map<string, string>

  const ServiceTypes: seq<string> := ["standard", "deep"]
  const BedroomTiers: seq<string> := ["studio", "p_1br", "p_2br", "p_3br", "p_4br"]
  /** The required fields, in the order they are checked; `time_slot` and `special_instructions` are not among them. */
  const Required: seq<string> := ["fullname", "email", "phone", "service_address", "service_type", "number_of_bedrooms", "preferred_date"]

  /** `body[k]`, with undefined read as the empty string. */
  function Lookup(f: Fields, k: string): string {
    if k in f then f[k] else ""
  }

  /** `body[k]` is truthy: present and not empty. A value of spaces is truthy. */
  predicate Truthy(f: Fields, k: string) {
    k in f && f[k] != ""
  }

  predicate AllPresent(f: Fields) {
    forall i :: 0 <= i < |Required| ==> Truthy(f, Required[i])
  }

  /** What the server accepts: every required field truthy, and both enumerations on their whitelist. */
  predicate Acceptable(f: Fields) {
    && AllPresent(f)
    && Lookup(f, "service_type") in ServiceTypes
    && Lookup(f, "number_of_bedrooms") in BedroomTiers
  }

  /** The checks of `handler` before pricing: None when they pass, else the message of the 400. */
  function ValidateLead(f: Fields): (err: Option<string>)
    ensures err.None? <==> Acceptable(f)
  {
    match FirstFailing(Required, k => Truthy(f, k))
    case Some(i) => Some("Missing: " + Required[i])
    case None =>
      if Lookup(f, "service_type") !in ServiceTypes then Some("Invalid service_type")
      else if Lookup(f, "number_of_bedrooms") !in BedroomTiers then Some("Invalid number_of_bedrooms")
      else None
  }

  /**
   * The message of the 400: the first falsy required field in listed order,
   * then an unknown service type, then an unknown bedroom tier.
   */
  lemma ValidateLeadMessages(f: Fields)
    ensures forall i :: 0 <= i < |Required| && !Truthy(f, Required[i]) && (forall j :: 0 <= j < i ==> Truthy(f, Required[j])) ==>
      ValidateLead(f) == Some("Missing: " + Required[i])
    ensures AllPresent(f) && Lookup(f, "service_type") !in ServiceTypes ==> ValidateLead(f) == Some("Invalid service_type")
    ensures AllPresent(f) && Lookup(f, "service_type") in ServiceTypes && Lookup(f, "number_of_bedrooms") !in BedroomTiers ==>
      ValidateLead(f) == Some("Invalid number_of_bedrooms")
  {
  }

  /** `quoteEngine({ service_type, number_of_bedrooms })` on the submission. */
  function LeadQuote(pricing: QuoteEngine.Pricing, f: Fields): Result<QuoteEngine.Quote, QuoteEngine.QuoteError> {
    QuoteEngine.QuoteFor(pricing, Lookup(f, "service_type"), Lookup(f, "number_of_bedrooms"))
  }

  /** The name split `splitName` makes of the submitted full name. */
  function LeadName(f: Fields): Formatters.Name {
    Formatters.SplitFullName(Some(Lookup(f, "fullname")))
  }

  /** The contact `upsertContact` is given: the submitted email and phone, and the split name. */
  function LeadContact(f: Fields): Contact {
    Contact(Lookup(f, "email"), LeadName(f).firstname, LeadName(f).lastname, Lookup(f, "phone"))
  }

  /** HUBSPOT_PIPELINE_ID, HUBSPOT_STAGE_QUOTE_SENT, SENDGRID_ACCEPT_URL_BASE, SITE_URL and ACCEPT_TOKEN_SECRET ("" when unset). */
  datatype LeadEnv = LeadEnv(pipeline: string, stageQuoteSent: string, acceptUrlBase: string, siteUrl: string, acceptSecret: string)

  /** The submission fields copied into the deal unchanged. */
  const CopiedKeys: set<string> := {"service_address", "service_type", "number_of_bedrooms", "preferred_date"}

  /** `Quote <first> <last> - <service_type>`. */
  function DealName(n: Formatters.Name, serviceType: string): string {
    "Quote " + n.firstname + " " + n.lastname + " - " + serviceType
  }

  /** `dealProps`: name, amount, pipeline, the quote-sent stage and the four copied fields, nothing else. */
  function DealProps(f: Fields, n: Formatters.Name, amount: int, env: LeadEnv): (p: Props)
    ensures p.Keys == {"dealname", "amount", "pipeline", "dealstage"} + CopiedKeys
    ensures "time_slot" !in p && "special_instructions" !in p
    ensures p["dealstage"] == Text(env.stageQuoteSent) && p["pipeline"] == Text(env.pipeline)
    ensures p["amount"] == Amount(amount)
    ensures p["dealname"] == Text("Quote " + n.firstname + " " + n.lastname + " - " + Lookup(f, "service_type"))
    ensures forall k :: k in CopiedKeys ==> p[k] == Text(Lookup(f, k))
  {
    map[
      "dealname" := Text(DealName(n, Lookup(f, "service_type"))),
      "amount" := Amount(amount),
      "pipeline" := Text(env.pipeline),
      "dealstage" := Text(env.stageQuoteSent),
      "service_address" := Text(Lookup(f, "service_address")),
      "service_type" := Text(Lookup(f, "service_type")),
      "number_of_bedrooms" := Text(Lookup(f, "number_of_bedrooms")),
      "preferred_date" := Text(Lookup(f, "preferred_date"))
    ]
  }

  /** The stage confirmation after the association writes nothing new: the deal already has that pipeline and stage. */
  lemma StageConfirmIsNoOp(f: Fields, n: Formatters.Name, amount: int, env: LeadEnv)
    ensures DealProps(f, n, amount, env) + StagePatch(env.pipeline, env.stageQuoteSent) == DealProps(f, n, amount, env)
  {
    var p := DealProps(f, n, amount, env);
    assert (p + StagePatch(env.pipeline, env.stageQuoteSent)).Keys == p.Keys;
  }

  /** `€` for EUR, `$` for USD, the code itself otherwise. */
  function CurrencySign(currency: string): string {
    if currency == "USD" then "$" else if currency == "EUR" then "€" else currency
  }

  function TwoDigits(n: nat): (s: string)
    requires n < 100
    ensures |s| == 2 && IsAsciiDigit(s[0]) && IsAsciiDigit(s[1])
  {
    [Decimal.DigitChar(n / 10), Decimal.DigitChar(n % 10)]
  }

  /** `amount.toFixed(2)` for an amount of whole cents: a sign when negative, the units, a point, two digits. */
  function ToFixed2(cents: int): string {
    var a := if cents < 0 then -cents else cents;
    (if cents < 0 then "-" else "") + Decimal.Show(a / 100) + "." + TwoDigits(a % 100)
  }

  /** Reading such a text back: the cents of `<units>.<dd>`, with an optional leading `-`. */
  function ParseFixed2(s: string): Option<int> {
    if |s| > 0 && s[0] == '-' then
      match ParseUnsignedFixed2(s[1..])
      case None => None
      case Some(v) => Some(-(v as int))
    else ParseUnsignedFixed2(s)
  }

  function ParseUnsignedFixed2(s: string): Option<nat> {
    if |s| < 4 || s[|s| - 3] != '.' || !IsAsciiDigit(s[|s| - 2]) || !IsAsciiDigit(s[|s| - 1]) then None
    else match Decimal.Parse(s[..|s| - 3])
      case None => None
      case Some(units) => Some(units * 100 + Decimal.DigitValue(s[|s| - 2]) * 10 + Decimal.DigitValue(s[|s| - 1]))
  }

  lemma CentsSplit(a: nat)
    ensures (a / 100) * 100 + ((a % 100) / 10) * 10 + (a % 100) % 10 == a
  {
  }

  lemma UnsignedRoundTrip(a: nat)
    ensures ParseUnsignedFixed2(Decimal.Show(a / 100) + "." + TwoDigits(a % 100)) == Some(a)
  {
    var w := Decimal.Show(a / 100);
    var t := TwoDigits(a % 100);
    var s := w + "." + t;
    assert |s| == |w| + 3;
    assert s[..|s| - 3] == w;
    assert s[|s| - 3] == '.' && s[|s| - 2] == t[0] && s[|s| - 1] == t[1];
    assert Decimal.DigitValue(t[0]) == (a % 100) / 10 && Decimal.DigitValue(t[1]) == (a % 100) % 10;
    Decimal.ParseShow(a / 100);
    CentsSplit(a);
  }

  /** The price text reads back as the amount, so no cent is lost or invented. */
  lemma ToFixed2RoundTrip(cents: int)
    ensures ParseFixed2(ToFixed2(cents)) == Some(cents)
  {
    var a := if cents < 0 then -cents else cents;
    var u := Decimal.Show(a / 100) + "." + TwoDigits(a % 100);
    UnsignedRoundTrip(a);
    assert IsAsciiDigit(u[0]);
    if cents < 0 {
      assert ToFixed2(cents)[1..] == u;
    } else {
      assert ToFixed2(cents) == u;
    }
  }

  /** `total_formatted`: the currency sign, then the amount with two decimals. */
  function TotalFormatted(currency: string, cents: int): (s: string)
    ensures |s| > |CurrencySign(currency)|
    ensures s[..|CurrencySign(currency)|] == CurrencySign(currency)
    ensures ParseFixed2(s[|CurrencySign(currency)|..]) == Some(cents)
  {
    var sign := CurrencySign(currency);
    var s := sign + ToFixed2(cents);
    ToFixed2RoundTrip(cents);
    assert s[|sign|..] == ToFixed2(cents);
    s
  }

  /** `number_of_bedrooms.replace('p_', '').toUpperCase()`. */
  function BedroomLabel(tier: string): string {
    AsciiUpper(ReplaceFirst(tier, "p_", ""))
  }

  /** A tier starting with `p_` loses exactly that prefix. */
  lemma DropsPrefix(tier: string)
    requires |tier| >= 2 && tier[..2] == "p_"
    ensures ReplaceFirst(tier, "p_", "") == tier[2..]
  {
    assert "" + tier[2..] == tier[2..];
  }

  /** A tier without a `p` is left as it is. */
  lemma {:induction false} KeepsUnprefixed(tier: string)
    requires 'p' !in tier
    ensures ReplaceFirst(tier, "p_", "") == tier
    decreases |tier|
  {
    if |tier| >= 2 {
      assert tier[0] != 'p';
      KeepsUnprefixed(tier[1..]);
      assert [tier[0]] + tier[1..] == tier;
    }
  }

  /** A `p_<n>br` tier is labelled `<n>BR`. */
  lemma TierLabel(n: char)
    requires '0' <= n <= '9'
    ensures BedroomLabel("p_" + [n] + "br") == [n] + "BR"
  {
    var tier := "p_" + [n] + "br";
    DropsPrefix(tier);
    assert tier[2..] == [n] + "br";
    var up := AsciiUpper([n] + "br");
    assert up[0] == n && up[1] == 'B' && up[2] == 'R';
  }

  /** A tier without a `p` is only upper-cased. */
  lemma UnprefixedLabel(tier: string)
    requires 'p' !in tier
    ensures BedroomLabel(tier) == AsciiUpper(tier)
  {
    KeepsUnprefixed(tier);
  }

  /** The label of each whitelisted tier: `STUDIO`, or the digit of `p_<n>br` followed by `BR`. */
  lemma WhitelistedLabel(tier: string)
    requires tier in BedroomTiers
    ensures BedroomLabel(tier) == if tier == "studio" then "STUDIO" else [tier[2]] + "BR"
  {
    if tier == "studio" {
      StudioLabel(tier);
    } else {
      assert tier == "p_" + [tier[2]] + "br";
      TierLabel(tier[2]);
    }
  }

  /** The one unprefixed tier, `studio`, is labelled `STUDIO`. */
  lemma StudioLabel(tier: string)
    requires tier == "studio"
    ensures BedroomLabel(tier) == "STUDIO"
  {
    UnprefixedLabel(tier);
    var up := AsciiUpper(tier);
    assert |up| == 6 && up[0] == 'S' && up[1] == 'T' && up[2] == 'U' && up[3] == 'D' && up[4] == 'I' && up[5] == 'O';
  }

  /** `SENDGRID_ACCEPT_URL_BASE || (SITE_URL || 'http://localhost:8888') + '/api/accept'`. */
  function AcceptBase(env: LeadEnv): (base: string)
    ensures base != ""
    ensures env.acceptUrlBase != "" ==> base == env.acceptUrlBase
  {
    if env.acceptUrlBase != "" then env.acceptUrlBase
    else (if env.siteUrl != "" then env.siteUrl else "http://localhost:8888") + "/api/accept"
  }

  /** The query string of the accept link. */
  function AcceptQuery(dealId: string, token: string): string {
    "d=" + Uri.EncodeURIComponent(dealId) + "&t=" + Uri.EncodeURIComponent(token)
  }

  /** `${base}?d=${encodeURIComponent(deal.id)}&t=${encodeURIComponent(token)}`. */
  function AcceptUrl(base: string, dealId: string, token: string): string {
    base + "?" + AcceptQuery(dealId, token)
  }

  /**
   * The link carries exactly two parameters, `d` and `t`, and percent-decoding
   * their values gives back the deal id and the token, whatever characters they hold.
   */
  lemma AcceptQueryParses(dealId: string, token: string)
    ensures Split(AcceptQuery(dealId, token), '&') ==
      ["d=" + Uri.EncodeURIComponent(dealId), "t=" + Uri.EncodeURIComponent(token)]
    ensures Uri.PercentDecode(Uri.EncodeURIComponent(dealId)) == Some(Utf8(dealId))
    ensures Uri.PercentDecode(Uri.EncodeURIComponent(token)) == Some(Utf8(token))
  {
    var a, b := "d=" + Uri.EncodeURIComponent(dealId), "t=" + Uri.EncodeURIComponent(token);
    assert '&' !in a && '&' !in b;
    assert AcceptQuery(dealId, token) == a + ['&'] + b;
    SplitAppend(a, '&', b);
    SplitWithoutSep(a, '&');
    SplitWithoutSep(b, '&');
    Uri.DecodeEncode(dealId);
    Uri.DecodeEncode(token);
  }

  /** The accept token of a quote e-mail lives twelve hours. */
  const TokenTtl: int := 60 * 60 * 12

  /** The dynamic template data of the quote e-mail, with its recipient. */
  datatype QuoteEmail = QuoteEmail(
    to: string, fullName: string, serviceType: string, bedrooms: string,
    address: string, dateLabel: string, totalFormatted: string, acceptUrl: string)

  /** The token the e-mail carries for a deal, minted at `now`. */
  function EmailToken(dealId: string, env: LeadEnv, now: int, prim: AcceptToken.Primitives): string {
    AcceptToken.SignAcceptToken(dealId, Some(TokenTtl), SecretFrom(env.acceptSecret), now, prim)
  }

  /** The e-mail `handler` sends for a priced lead whose deal is `dealId`. */
  function EmailFor(f: Fields, n: Formatters.Name, amount: int, currency: string, dealId: string,
                    env: LeadEnv, now: int, prim: AcceptToken.Primitives): (e: QuoteEmail)
    ensures e.to == Lookup(f, "email") && e.address == Lookup(f, "service_address")
    ensures e.dateLabel == Lookup(f, "preferred_date") && e.serviceType == Lookup(f, "service_type")
    ensures e.fullName == n.firstname + " " + n.lastname
    ensures e.acceptUrl == AcceptUrl(AcceptBase(env), dealId, EmailToken(dealId, env, now, prim))
    ensures e.bedrooms == BedroomLabel(Lookup(f, "number_of_bedrooms"))
    ensures var sign := CurrencySign(currency);
      |e.totalFormatted| > |sign| && e.totalFormatted[..|sign|] == sign && ParseFixed2(e.totalFormatted[|sign|..]) == Some(amount)
  {
    QuoteEmail(
      Lookup(f, "email"),
      n.firstname + " " + n.lastname,
      Lookup(f, "service_type"),
      BedroomLabel(Lookup(f, "number_of_bedrooms")),
      Lookup(f, "service_address"),
      Lookup(f, "preferred_date"),
      TotalFormatted(currency, amount),
      AcceptUrl(AcceptBase(env), dealId, EmailToken(dealId, env, now, prim)))
  }

  /**
   * The token in the link verifies, under the same secret, as a token for
   * that very deal at any time up to twelve hours after it was minted.
   */
  lemma EmailTokenVerifies(dealId: string, env: LeadEnv, now0: int, now: int, prim: AcceptToken.Primitives)
    requires AcceptToken.ParsesBack(prim.json)
    requires now <= now0 + TokenTtl
    ensures var v := AcceptToken.VerifyAcceptToken(Some(EmailToken(dealId, env, now0, prim)), SecretFrom(env.acceptSecret), now, prim);
      v.Valid? && v.payload.dealId == Some(dealId)
  {
    AcceptToken.RoundTrip(dealId, Some(TokenTtl), SecretFrom(env.acceptSecret), now0, now, prim);
  }
}
