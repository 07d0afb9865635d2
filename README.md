# Quote-and-accept pipeline of queens-and-clean, modelled in Dafny

The repository takes cleaning-quote requests from a web form, prices them, records them in HubSpot and e-mails the customer an "accept" link. Clicking the link moves the HubSpot deal to the accepted stage. This project models the logic of that pipeline and proves properties of it:

- **Accept token** (`AcceptToken`, `Base64`). This is the hand-built HS256 JSON Web Token of `functions/lib/token.js`: its three base64url segments (RFC 4648, section 5, unpadded), the order of its checks, and its expiry rule.
  - The model keeps the code's three departures from RFC 7515 and RFC 7519:
    - one `.` is enough to get past the shape check;
    - the signature is compared as text;
    - `alg` and `iss` are never read.
  - HMAC-SHA256 and JSON are parameters (`Hmac`, `JsonCodec`). The only thing assumed of JSON is `ParsesBack`: parsing what was stringified gives it back.
  - Base64 and UTF-8 are written out in full.
- **Older signer** (`Signer`). This is the `dealId.hexsig` scheme of `services/signer.js`, including the exception `timingSafeEqual` throws on a length mismatch.
- **Pure helpers.**
  - `QuoteEngine`: the two-level price lookup. Amounts are whole cents.
  - `Formatters`: name splitting and phone normalisation.
  - `Uri`: `encodeURIComponent` and its decoding.
  - `Decimal`: `String(n)` for record ids.
  - `Common`: `split`/`join` on one character.
- **HubSpot.** `Crm.Hubspot` is an in-memory store:
  - contacts and deals as sequences (the position is the id);
  - a set of deal–contact links;
  - a fixed reply per endpoint that fails for the duration of one request.
  
  `HubspotClient` is `services/hubspotClient.js` over that store. It covers the create-then-fallback contact reconciliation, the deal-property override and the stage update.
- **Lead handler** (`LeadRules`, `LeadHandler`). The pure parts of `functions/lead.js` are in `LeadRules`: validation, deal properties, price text, bedroom label and accept link. Its handler is in `LeadHandler`:
  - it runs validate → price → upsert contact → create deal → associate → confirm stage → e-mail;
  - every 400 exits before any CRM call;
  - a failure is never rolled back.
- **Accept handler** (`AcceptHandler`). `functions/accept.js` as a guarded transition: only a valid token minted for the deal `d` moves that deal to the accepted stage. Presenting the link again repeats the same write.
- **Front end** (`FrontValidation`, `FormScript`, `MainScript`). The two copies of `frontValidate`, the payload preparation of `form.js` (it deletes `time_slot` and `special_instructions`), and the pass-through of `main.js`.

Both `functions/lead.js` and `functions/accept.js` are modelled with the token codec of `functions/lib/token.js`. `functions/accept.js:3` imports that file directly, and `functions/lead.js:7` names it by a path that resolves elsewhere.

Environment variables are parameters. The empty string stands for an unset variable. The clock is a parameter `now`, in whole seconds. Whether the e-mail service accepts the message is a parameter `delivered`.

## Model

| member | source | states |
|---|---|---|
| Base64.B64Url | functions/lib/token.js:4-6 | the output uses only the URL-safe alphabet and never contains `=`, `+`, `/` or `.` |
| Base64.DecodeUrlB64Url | functions/lib/token.js:4-6 | decoding a `b64url` segment the way `verifyAcceptToken` does gives back exactly the bytes encoded |
| Base64.DecodeEncode | functions/lib/token.js:4-6 | unpadded standard base64 decodes back to the encoded bytes, for every length |
| Base64.Encode | functions/lib/token.js:5 | `toString('base64')` has 4·⌈n/3⌉ characters, all from the standard alphabet or `=` |
| AcceptToken.Minted | functions/lib/token.js:8-19 | a minted token splits into exactly three segments: the fixed HS256 header, a payload decoding to the JSON of `{dealId, iat: now, exp: now + ttl, iss: 'qnc'}`, and the HMAC over the first two |
| AcceptToken.VerifyAcceptToken | functions/lib/token.js:21-35 | the result is 'Malformed token' exactly when the token is not a string or has no `.` |
| AcceptToken.MalformedBeforeHmac | functions/lib/token.js:22-24 | a token without a `.` is malformed whatever the secret, clock, HMAC and JSON codec |
| AcceptToken.SignatureCheckedFirst | functions/lib/token.js:25-28 | 'Bad signature' exactly when the third segment is missing or differs from the recomputed one, before the payload is looked at |
| AcceptToken.OneDotIsBadSignature | functions/lib/token.js:25-28 | a one-dot token always gives 'Bad signature' |
| AcceptToken.ClockOnlyExpires | functions/lib/token.js:31-32 | for `n1 <= n2` the verdict on a token at `n1` and at `n2` is the same, unless it was valid at `n1` with `exp` in `[n1, n2)` and is 'Expired token' at `n2`; a token valid at some instant was valid, with the same claims, at every earlier one |
| AcceptToken.ExtraSegmentsIgnored | functions/lib/token.js:25-34 | appending `.x` to a three-segment token does not change the verdict |
| AcceptToken.SignThenVerify | functions/lib/token.js:8-35 | verifying a minted token yields exactly its minted claims until `now > exp`, and 'Expired token' from then on (never when `exp` is 0) |
| AcceptToken.RoundTrip | functions/lib/token.js:8-35 | at any `now ≤ iat + ttl` the minted token is valid and carries the same `dealId` |
| Signer.SignToken | services/signer.js:5-9 | for a deal id without `.`, the token splits into the deal id and the hex HMAC of `deal=<dealId>` |
| Signer.Hex | services/signer.js:7 | `digest('hex')` is two lowercase hex digits per byte |
| Signer.HexInjective | services/signer.js:7-15 | different digests have different hex text |
| Signer.VerifyToken | services/signer.js:11-12 | a missing or empty token or deal id gives false |
| Signer.VerifyTokenAccepts | services/signer.js:11-17 | true exactly when the first segment is the non-empty deal id and the second is that deal's signature |
| Signer.VerifyTokenRefuses | services/signer.js:13-14 | for a present deal id and token, a first segment other than the deal id or a missing or empty second segment gives false, never a throw |
| Signer.SignThenVerify | services/signer.js:5-17 | a token signed for a non-empty deal id without `.` verifies for that deal |
| Signer.DottedIdNeverVerifies | services/signer.js:13-14 | a deal id containing `.` never verifies, even with its own token |
| Signer.CrossDealRefused | services/signer.js:14 | a token for a deal id a without `.` gives false for every other deal b |
| Signer.DottedIdTokenThrows | services/signer.js:13-16 | for a dotted id `b.x` the refusal fails: its token, presented for deal b, passes the first-segment check and makes `timingSafeEqual` throw unless `x` is 64 bytes long |
| Signer.LengthMismatchThrows | services/signer.js:13-16 | a second segment whose UTF-8 length is not 64 makes verification throw instead of returning false |
| QuoteEngine.QuoteFor | services/quoteEngine.js:4-10 | 'Invalid service_type' iff the service has no table; 'Invalid number_of_bedrooms' iff it has one but the rate is not finite; otherwise the amount is the table entry and the currency is the table's, or 'USD' when that is empty |
| QuoteEngine.ServiceCheckedFirst | services/quoteEngine.js:5-8 | with an unknown service type the bedroom tier does not matter |
| QuoteEngine.CurrencyIndependentOfInputs | services/quoteEngine.js:9 | every successful quote from one table has the same currency |
| QuoteEngine.QuoteIsTableEntry | services/quoteEngine.js:4-10 | a quote of x cents succeeds exactly when the table holds a finite x for the pair |
| Formatters.SplitFullName | shared/formatters.js:1-6 | the first name contains no whitespace |
| Formatters.JoinSplitWs | shared/formatters.js:2 | joining the `\s+` pieces with one space is the text with each whitespace run squashed to one space |
| Formatters.LastNameSingleSpaced | shared/formatters.js:2-4 | the last name has no leading or trailing whitespace and no whitespace runs |
| Formatters.BlankName | shared/formatters.js:2-5 | the first name is empty iff the input is missing or all whitespace, and then both names are empty |
| Formatters.NameReassembles | shared/formatters.js:1-6 | first name, then a space and the last name when that is non-empty, is the trimmed input with whitespace runs squashed |
| Formatters.NormalizePhone | shared/formatters.js:8-11 | the output holds only ASCII digits and `+` and is no longer than the input |
| Formatters.KeepPhoneCharsCounts | shared/formatters.js:9 | every digit and `+` is kept as often as it occurs, and every other character is deleted |
| Formatters.KeepPhoneCharsAppend | shared/formatters.js:9 | the filter works character by character, so order is preserved |
| Formatters.NormalizePhoneIdempotent | shared/formatters.js:8-11 | normalising twice is normalising once |
| Uri.EncodeURIComponent | functions/lead.js:189 | the output is unreserved characters and `%` escapes only, so it has no `&`, `=`, `?`, `#`, `+` or space |
| Uri.DecodeEncode | functions/lead.js:189 | percent-decoding the output gives the UTF-8 bytes of the input |
| Decimal.ParseIsShow | functions/accept.js:15 | an id string resolves to n exactly when it is the decimal spelling of n |
| Crm.Resolve | functions/accept.js:15 | a resolved id names an existing record and is that record's own id |
| Crm.Hubspot.SearchByEmail | functions/lead.js:26-42 | a fault is returned as is; otherwise the id of the one contact with that email, or none |
| Crm.Hubspot.CreateContact | functions/lead.js:45-54 | 409 and no change when the email is taken; otherwise 201, the new id, and the contact appended |
| Crm.Hubspot.PatchContact | functions/lead.js:57-66 | 404 for an unknown id; 409 when a new email belongs to another contact; otherwise that contact alone is rewritten |
| Crm.Hubspot.CreateDeal | functions/lead.js:78-87 | the deal is appended with the next id unless the endpoint fails |
| Crm.Hubspot.Associate | functions/lead.js:90-101 | 404 unless both records exist; otherwise exactly that link is added |
| Crm.Hubspot.PatchDeal | functions/lead.js:104-112 | 404 for an unknown deal; otherwise that deal's properties are overwritten by the patch and the rest kept |
| Crm.StagePatch | functions/lead.js:108 | a stage update sends exactly `pipeline` and `dealstage` |
| HubspotClient.FindContactByEmail | services/hubspotClient.js:40-52 | a non-2xx search gives null rather than an error, a timeout throws, otherwise the first match's id |
| HubspotClient.UpdateContact | services/hubspotClient.js:54-59 | names and phone are rewritten and the email kept; a non-2xx throws with its status |
| HubspotClient.CreateOrUpdateContact | services/hubspotClient.js:18-38 | a 2xx returns the created id with no search; a 409 with a match returns it untouched; another failure with a match patches names and phone; no match throws the create's status; a returned id always names a contact with that email |
| HubspotClient.DealPayload | services/hubspotClient.js:65-71 | the caller's properties with `pipeline` and `dealstage` set to the configured ones, every other property kept |
| HubspotClient.CallerCannotChooseStage | services/hubspotClient.js:66-70 | whatever pipeline and stage the caller passes, the payload is the same |
| HubspotClient.CreateOrUpdateDeal | services/hubspotClient.js:62-76 | always appends a new deal with that payload, with no search; a non-2xx throws and writes nothing |
| HubspotClient.AssociateDealToContact | services/hubspotClient.js:78-83 | exactly the link between the two records is added; a non-2xx throws and writes nothing |
| HubspotClient.UpdateDealStage | services/hubspotClient.js:85-90 | exactly `pipeline` and `dealstage` of that deal change; a non-2xx throws and writes nothing |
| HubspotClient.UpdateDealStageTwice | services/hubspotClient.js:85-90 | a repeated update gives the same outcome and the state of a single update |
| LeadRules.ValidateLead | functions/lead.js:117-147 | no message iff every required field is truthy and both enumerations are whitelisted |
| LeadRules.ValidateLeadMessages | functions/lead.js:138-147 | the message is `Missing: <k>` for the first falsy field in listed order, then 'Invalid service_type', then 'Invalid number_of_bedrooms' |
| LeadRules.DealProps | functions/lead.js:161-172 | exactly name, amount, pipeline, the quote-sent stage and the four copied fields, with no `time_slot` or `special_instructions`; the name is `Quote <first> <last> - <service_type>` |
| LeadRules.StageConfirmIsNoOp | functions/lead.js:178 | the stage confirmation after the association rewrites the deal to what it already holds |
| LeadRules.TotalFormatted | functions/lead.js:181-182 | the currency sign ('$' for USD, '€' for EUR, else the code), then text that reads back as exactly the amount in cents |
| LeadRules.ToFixed2RoundTrip | functions/lead.js:182 | `toFixed(2)` of a whole-cent amount loses and invents no cent |
| LeadRules.WhitelistedLabel | functions/lead.js:196 | each whitelisted tier is labelled `STUDIO` or `<n>BR` |
| LeadRules.TierLabel | functions/lead.js:196 | a `p_<n>br` tier loses its `p_` prefix and is upper-cased to `<n>BR` |
| LeadRules.UnprefixedLabel | functions/lead.js:196 | a tier with no `p` keeps its text and is only upper-cased |
| LeadRules.StudioLabel | functions/lead.js:196 | the unprefixed tier `studio` is labelled STUDIO |
| LeadRules.AcceptBase | functions/lead.js:187 | the configured accept URL base when set, otherwise a non-empty default ending in `/api/accept` |
| LeadRules.AcceptQueryParses | functions/lead.js:189 | the link carries exactly the two parameters `d` and `t`, whose values decode back to the deal id and the token |
| LeadRules.EmailFor | functions/lead.js:180-202 | the e-mail's recipient, name, service, address, date and accept link come from the submission and the deal; the bedrooms field is the tier's label; the total is the currency sign followed by a text that reads back as the quoted cents |
| LeadRules.EmailTokenVerifies | functions/lead.js:188 | the link's token verifies for that deal for twelve hours after it is minted |
| LeadHandler.FindContactByEmail | functions/lead.js:26-42 | unlike the client's search, a non-2xx search here is an error |
| LeadHandler.UpsertContact | functions/lead.js:69-75 | a found contact is overwritten with all four fields; otherwise exactly one contact is created; the returned id names a contact equal to the submission; a failure of the search, the update or the create leaves the contacts unchanged |
| LeadHandler.FileDeal | functions/lead.js:174-178 | the deal is appended with the lead's properties, linked to the contact, and its stage confirmed; the first failing step is reported; contacts never change and no earlier write is undone, so a failed stage patch leaves the deal and its new link in place; only a link to the new deal can be added; with no fault all three steps succeed |
| LeadHandler.RecordLead | functions/lead.js:158-178 | the steps run upsert → create deal → associate → stage; the first failure stops and is reported with its step; a failure inside the upsert leaves the contacts unchanged; from the deal creation on, a failure leaves the contact upserted by its email in place, and a failed stage patch leaves the new deal and its link, since nothing is rolled back; on success the ids returned are the new deal's and the upserted contact's, and the new deal is linked to that contact, which equals the submission; with no fault every step succeeds |
| LeadHandler.Process | functions/lead.js:158-204 | the e-mail is built for the new deal's id and attempted only after every HubSpot step succeeded; 200 only when it was delivered, and its body names the new deal and the upserted contact; 500 for a failed e-mail otherwise; a HubSpot failure sends nothing; the contacts are unchanged after an upsert failure and hold the upserted contact otherwise |
| LeadHandler.ProcessLead | functions/lead.js:157-204 | the one deal added carries exactly the lead's properties, since the stage confirmation changes nothing; the contacts are unchanged when the upsert failed, and otherwise hold the submission upserted by its email, even on a later 500; a failed association leaves it unlinked; on 200 the body names it and the contact upserted by the submission's email (the found contact's id, or the next one), it is linked to that contact, and the quote e-mail for it was sent; with no fault and a working mail service the answer is 200 |
| LeadHandler.HandleFields | functions/lead.js:137-210 | a validation failure gives 400 with its message and a pricing error gives 500, neither touching the CRM nor sending mail; only an acceptable, priced lead reaches HubSpot, with the outcome of `ProcessLead` |
| LeadHandler.Handle | functions/lead.js:131-210 | non-POST gives 400 'POST only' and bad JSON gives 500, both before any CRM call or e-mail; a parsed body has the outcome of `HandleFields` |
| AcceptHandler.Decide | functions/accept.js:42-54 | missing parameters iff `d` or `t` is empty; proceed iff the token is valid and its `dealId` is exactly `d`; a throw from verification is kept apart |
| AcceptHandler.UpdateDealStage | functions/accept.js:14-22 | succeeds iff the PATCH is 2xx, and then exactly the deal's `pipeline` and `dealstage` change |
| AcceptHandler.Handle | functions/accept.js:40-69 | both 400 pages and a throwing verification leave the CRM unchanged. 200 iff the decision is to proceed and the stage update succeeds, and then only that deal's stage changes. Any other outcome is 500 with nothing written |
| AcceptHandler.CrossDealRefused | functions/accept.js:51 | a token minted for deal a is refused for every other deal b, at any time |
| AcceptHandler.ExpiredRefused | functions/accept.js:50-54 | after a non-zero `exp` the link is refused even for its own deal |
| AcceptHandler.QuoteLinkProceeds | functions/accept.js:42-57 | the token in the quote e-mail, presented within twelve hours under the same secret, leads to the stage update of that deal |
| AcceptHandler.AcceptTwice | functions/accept.js:50-63 | presenting a link again answers the same and leaves the state of a single visit |
| FrontValidation.FrontValidate | public/assets/js/form.js:18-44 | no throw iff every required field is non-blank after trimming and both enumerations are whitelisted |
| FrontValidation.FrontValidateMessages | public/assets/js/form.js:18-44 | the message thrown is 'Please complete: k' for the first blank field in order, then 'Invalid service type', then 'Invalid bedrooms' |
| FrontValidation.FrontIsServerPlusTrim | public/assets/js/form.js:7-44 | with the server's lists, the front end accepts exactly what the server accepts and is non-blank after trimming |
| FrontValidation.OnlyInspectedKeysMatter | public/assets/js/main.js:18-43 | fields other than the required ones and the two enumerations never change the verdict |
| FrontValidation.WhitespaceNameGap | public/assets/js/form.js:30 | a full name of one space is accepted by the server and rejected by the front end |
| FormScript.PreparePayload | public/assets/js/form.js:53-54 | `time_slot` and `special_instructions` are removed and every other key keeps its value |
| FormScript.DroppedNotInspected | public/assets/js/form.js:53-56 | deleting the two fields never changes the front-end verdict |
| FormScript.Submit | public/assets/js/form.js:49-65 | the toast message is `frontValidate`'s throw; what is posted lacks the two deleted fields, keeps the others, and passes the server's validation |
| MainScript.RulesAreServers | public/assets/js/main.js:7-28 | main.js's lists are the server's and form.js's |
| MainScript.Submit | public/assets/js/main.js:45-57 | the form data is posted unchanged exactly when `frontValidate` passes, and then it passes the server's validation |
| MainScript.ExtraFieldsPassThrough | public/assets/js/main.js:42-56 | an extra field such as `time_slot` is neither validated nor stripped |

## Left out

- HTTP plumbing is not modelled: `fetch`, headers, the bearer token and URL building. Each HubSpot call is a call on the in-memory store, which answers with a status or with no response.
- `withTimeout` (services/hubspotClient.js:13-15) is timing and concurrency. It is modelled as the reply `NoResponse`, which the client turns into `Timeout`.
- HubSpot's `message` text is left out of the lead handler's 500 body. The body holds a `Cause` instead: the failing step with its status, bad JSON, the pricing error, or the e-mail.
- A `res.json()` that fails on a non-JSON reply is left out, and so is a `fetch` network error other than a timeout.
- HubSpot search is consistent in the model. Its indexing delay is left out.
- HMAC-SHA256 and `JSON.stringify`/`JSON.parse` are uninterpreted parameters. Their unforgeability cannot be stated and is not assumed. Only `ParsesBack` is assumed of JSON.
- `AcceptToken.VerifyAcceptToken`: the payload decoding accepts only canonical unpadded base64url, and everything else counts as a JSON.parse failure. Node's lenient decoder, which skips stray characters and accepts padding, is not modelled.
- `LeadRules.Fields` maps keys to strings, so a lead body holding JSON numbers, booleans, `null`, arrays or objects is not modelled. `0`, `false` and `null` would be falsy and give `Missing: <k>`. Other non-string values would be truthy and reach HubSpot and `String(fullname)`. A body of `null` would make `body[k]` throw, which the handler answers with 500. Both front-end scripts post form strings.
- `AcceptToken.Claims` holds only the four claims the code writes, and a non-string `dealId` counts as missing. JSON values of other types are not modelled.
- Numbers are whole cents. Float prices, `Number(...)` on non-numeric table entries (an abstract `NotFinite`) and float rounding in `toFixed(2)` are left out.
- `QuoteEngine.QuoteFor`: the top-level `currency` key of config/pricing.json is kept apart from the service tables, so a service type named `currency` is not modelled. config/pricing.json is not part of this model.
- `LeadRules.BedroomLabel` upper-cases ASCII letters only. Full Unicode case mapping is left out; the whitelisted tiers are ASCII.
- `Uri.EncodeURIComponent` works on Unicode scalar values. The URIError that JavaScript raises for a lone surrogate cannot arise in the model.
- An unset environment variable is the empty string. The source would send `undefined`, which `JSON.stringify` drops from the HubSpot payload.
- E-mail sending (functions/lib/sendgrid.js, services/sendgridClient.js) is the `delivered` parameter. The template id and the SendGrid call are not modelled.
- The HTML pages of functions/accept.js are reduced to which page is shown.
- public/assets/js/cookies.js, the DOM, the toast and the network request of the two front-end scripts are not modelled.
- Faults are fixed for one request: an endpoint that fails fails every time it is called in that request.
- Concurrent submissions are not modelled, including the duplicate-contact race between two submissions with the same email.
- `Crm.Hubspot`: record ids are positions in a sequence, and records are never deleted.
- `AcceptToken.HeaderSegment` is the base64url text of `{"alg":"HS256","typ":"JWT"}`, written out as a constant. It is not computed from the header object, in the same way that the claims' JSON comes from the `JsonCodec` parameter.
