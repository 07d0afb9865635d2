/**
 * public/assets/js/main.js: the second copy of the front-end lists and of
 * `frontValidate`, and what its submit handler posts. Unlike form.js it
 * deletes nothing: `time_slot` and any other extra field go to the server as
 * entered, unvalidated. The DOM and the request itself are not modelled.
 */
module MainScript {
  import opened Common
  import opened LeadRules
  import opened FrontValidation
  import FormScript

  const Rules: FrontRules := FrontRules(
    ["fullname", "email", "phone", "service_address", "service_type", "number_of_bedrooms", "preferred_date"],
    ["standard", "deep"],
    ["studio", "p_1br", "p_2br", "p_3br", "p_4br"])

  /** This copy of the lists is the server's, and so is form.js's: the two scripts validate alike. */
  lemma RulesAreServers()
    ensures SameAsServer(Rules) && Rules == FormScript.Rules
  {
  }

  /**
   * The submit handler up to the request: the form data posted unchanged, or
   * the message `frontValidate` throws. Whatever is posted passes the server's
   * validation, and a field the front end does not read never blocks it.
   */
  function Submit(data: Fields): (r: Result<Fields, string>)
    ensures r.Failure? <==> !Passes(Rules, data)
    ensures r.Success? ==> r.value == data && ValidateLead(data).None?
    ensures r.Failure? ==> r.error == FrontValidate(Rules, data).value
  {
    RulesAreServers();
    FrontIsServerPlusTrim(Rules, data);
    match FrontValidate(Rules, data)
    case Some(message) => Failure(message)
    case None => Success(data)
  }

  /** Extra fields such as `time_slot` are neither validated nor stripped: any value for them is posted as given. */
  lemma ExtraFieldsPassThrough(data: Fields, k: string, v: string)
    requires !Inspected(Rules, k)
    ensures Submit(data[k := v]).Success? <==> Submit(data).Success?
    ensures Submit(data[k := v]).Success? ==> k in Submit(data[k := v]).value && Submit(data[k := v]).value[k] == v
  {
    OnlyInspectedKeysMatter(Rules, data[k := v], data);
  }
}
