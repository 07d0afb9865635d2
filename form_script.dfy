/**
 * public/assets/js/form.js: its own `whitelist` and `req` list, and the submit
 * handler's preparation of the payload. The handler deletes `time_slot` and
 * `special_instructions` from the form data in place, validates what is left,
 * and posts it. The DOM, the toast and the request itself are not modelled;
 * the result is the body posted, or the message shown.
 */
module FormScript {
  import opened Common
  import opened LeadRules
  import opened FrontValidation

  const Rules: FrontRules := FrontRules(
    ["fullname", "email", "phone", "service_address", "service_type", "number_of_bedrooms", "preferred_date"],
    ["standard", "deep"],
    ["studio", "p_1br", "p_2br", "p_3br", "p_4br"])

  /** The two fields the handler deletes before validating. */
  const Dropped: set<string> := {"time_slot", "special_instructions"}

  /** This copy of the lists is the server's. */
  lemma RulesAreServers()
    ensures SameAsServer(Rules)
  {
  }

  /** `delete data.time_slot; delete data.special_instructions;` on the form data. */
  method PreparePayload(data: Fields) returns (payload: Fields)
    ensures payload.Keys == data.Keys - Dropped
    ensures forall k :: k in payload ==> payload[k] == data[k]
  {
    payload := data;
    if "time_slot" in payload {
      payload := payload - {"time_slot"};
    }
    if "special_instructions" in payload {
      payload := payload - {"special_instructions"};
    }
  }

  /** The deleted fields are not among those `frontValidate` reads, so deleting them never changes its verdict. */
  lemma DroppedNotInspected(data: Fields)
    ensures FrontValidate(Rules, data - Dropped) == FrontValidate(Rules, data)
  {
    forall k | Inspected(Rules, k) ensures Lookup(data - Dropped, k) == Lookup(data, k) {
      assert k !in Dropped;
    }
    OnlyInspectedKeysMatter(Rules, data - Dropped, data);
  }

  /**
   * The submit handler up to the request: the body it posts, or the message
   * the toast shows when `frontValidate` throws. What it posts has neither
   * deleted field, keeps every other field as entered, and passes the
   * server's validation.
   */
  method Submit(data: Fields) returns (r: Result<Fields, string>)
    ensures r.Failure? <==> FrontValidate(Rules, data).Some?
    ensures r.Failure? ==> r.error == FrontValidate(Rules, data).value
    ensures r.Success? ==>
      && r.value.Keys == data.Keys - Dropped
      && (forall k :: k in r.value ==> r.value[k] == data[k])
      && ValidateLead(r.value).None?
  {
    var payload := PreparePayload(data);
    assert payload == data - Dropped;
    DroppedNotInspected(data);
    var invalid := FrontValidate(Rules, payload);
    if invalid.Some? {
      return Failure(invalid.value);
    }
    RulesAreServers();
    FrontIsServerPlusTrim(Rules, payload);
    return Success(payload);
  }
}
