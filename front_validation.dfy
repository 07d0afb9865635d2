/**
 * `frontValidate`, which public/assets/js/form.js and public/assets/js/main.js
 * each define with their own copies of the required list and the whitelists:
 * every required field must be non-blank after trimming, then the service type
 * and the bedroom tier must be on their whitelists. A throw is modelled as the
 * message it carries.
 */
module FrontValidation {
  import opened Common
  import opened LeadRules
  import Formatters

  /** The lists one copy of `frontValidate` works from: `req` and the two `whitelist` entries. */
  datatype FrontRules = FrontRules(required: seq<string>, serviceTypes: seq<string>, bedrooms: seq<string>)

  /** `!d[k] || String(d[k]).trim() === ''`: absent, empty, or whitespace only. */
  predicate Blank(f: Fields, k: string) {
    !Truthy(f, k) || Formatters.Trim(f[k]) == ""
  }

  /** What `frontValidate` lets through. */
  predicate Passes(rules: FrontRules, f: Fields) {
    && (forall i :: 0 <= i < |rules.required| ==> !Blank(f, rules.required[i]))
    && Lookup(f, "service_type") in rules.serviceTypes
    && Lookup(f, "number_of_bedrooms") in rules.bedrooms
  }

  /** `frontValidate(d)`: None when it returns normally, else the message it throws. */
  function FrontValidate(rules: FrontRules, f: Fields): (err: Option<string>)
    ensures err.None? <==> Passes(rules, f)
  {
    match FirstFailing(rules.required, k => !Blank(f, k))
    case Some(i) => Some("Please complete: " + rules.required[i])
    case None =>
      if Lookup(f, "service_type") !in rules.serviceTypes then Some("Invalid service type")
      else if Lookup(f, "number_of_bedrooms") !in rules.bedrooms then Some("Invalid bedrooms")
      else None
  }

  /**
   * The message thrown: the first blank required field in listed order, then
   * an unknown service type, then an unknown bedroom tier.
   */
  lemma FrontValidateMessages(rules: FrontRules, f: Fields)
    ensures forall i :: 0 <= i < |rules.required| && Blank(f, rules.required[i]) && (forall j :: 0 <= j < i ==> !Blank(f, rules.required[j])) ==>
      FrontValidate(rules, f) == Some("Please complete: " + rules.required[i])
    ensures (forall i :: 0 <= i < |rules.required| ==> !Blank(f, rules.required[i])) ==>
      if Lookup(f, "service_type") !in rules.serviceTypes then FrontValidate(rules, f) == Some("Invalid service type")
      else if Lookup(f, "number_of_bedrooms") !in rules.bedrooms then FrontValidate(rules, f) == Some("Invalid bedrooms")
      else FrontValidate(rules, f).None?
  {
  }

  /** The front end and the server ask for the same fields in the same order and share both whitelists. */
  predicate SameAsServer(rules: FrontRules) {
    rules.required == Required && rules.serviceTypes == ServiceTypes && rules.bedrooms == BedroomTiers
  }

  /**
   * With the server's lists, the front end accepts exactly what the server
   * accepts and whose required fields are not whitespace only: a trimmed
   * non-empty value is truthy, and nothing else differs.
   */
  lemma FrontIsServerPlusTrim(rules: FrontRules, f: Fields)
    requires SameAsServer(rules)
    ensures FrontValidate(rules, f).None? <==>
      ValidateLead(f).None? && forall i :: 0 <= i < |Required| ==> Formatters.Trim(f[Required[i]]) != ""
  {
    if FrontValidate(rules, f).None? {
      forall i | 0 <= i < |Required| ensures Truthy(f, Required[i]) {
        assert !Blank(f, rules.required[i]);
      }
    }
  }

  /** What `frontValidate` reads: a required field, or one of the two enumerations. */
  predicate Inspected(rules: FrontRules, k: string) {
    k in rules.required || k == "service_type" || k == "number_of_bedrooms"
  }

  /** Keys `frontValidate` never reads can change, appear or disappear without changing its verdict. */
  lemma {:induction false} OnlyInspectedKeysMatter(rules: FrontRules, f: Fields, g: Fields)
    requires forall k :: Inspected(rules, k) ==> Lookup(f, k) == Lookup(g, k)
    ensures FrontValidate(rules, f) == FrontValidate(rules, g)
  {
    SameBlanks(rules, f, g);
    assert Inspected(rules, "service_type") && Inspected(rules, "number_of_bedrooms");
  }

  lemma SameBlanks(rules: FrontRules, f: Fields, g: Fields)
    requires forall k :: Inspected(rules, k) ==> Lookup(f, k) == Lookup(g, k)
    ensures forall i :: 0 <= i < |rules.required| ==> Blank(f, rules.required[i]) == Blank(g, rules.required[i])
  {
    forall i | 0 <= i < |rules.required| ensures Blank(f, rules.required[i]) == Blank(g, rules.required[i]) {
      var k := rules.required[i];
      assert Inspected(rules, k);
      assert Truthy(f, k) <==> Lookup(f, k) != "";
      assert Truthy(g, k) <==> Lookup(g, k) != "";
    }
  }

  /** A submission whose every field is filled in, its full name with a single space. */
  function SpaceNamed(): Fields {
    map["fullname" := " ", "email" := "x", "phone" := "x", "service_address" := "x",
        "service_type" := "standard", "number_of_bedrooms" := "studio", "preferred_date" := "x"]
  }

  lemma SpaceNamedAcceptable()
    ensures Acceptable(SpaceNamed())
  {
    var f := SpaceNamed();
    forall i | 0 <= i < |Required| ensures Truthy(f, Required[i]) {
      assert Required[i] in f.Keys;
    }
  }

  /**
   * The server accepts a submission the front end turns away: a full name of
   * one space is truthy on the server, blank after trimming in the browser.
   */
  lemma WhitespaceNameGap(rules: FrontRules)
    requires SameAsServer(rules)
    ensures ValidateLead(SpaceNamed()).None?
    ensures FrontValidate(rules, SpaceNamed()) == Some("Please complete: fullname")
  {
    SpaceNamedAcceptable();
    SpaceNamedRejected(rules);
  }

  lemma SpaceNamedRejected(rules: FrontRules)
    requires |rules.required| > 0 && rules.required[0] == "fullname"
    ensures FrontValidate(rules, SpaceNamed()) == Some("Please complete: fullname")
  {
    var f := SpaceNamed();
    SpaceIsBlank();
    assert f["fullname"] == " ";
    assert Blank(f, rules.required[0]);
    FrontValidateMessages(rules, f);
    var err := FrontValidate(rules, f);
    assert err == Some("Please complete: " + rules.required[0]);
    assert "Please complete: " + "fullname" == "Please complete: fullname";
  }

  lemma SpaceIsBlank()
    ensures Formatters.Trim(" ") == ""
  {
    assert Formatters.IsSpace(" "[0]);
  }
}
