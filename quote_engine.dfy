/**
 * The price lookup of services/quoteEngine.js. The price table (config/pricing.json)
 * is a parameter: a top-level `currency` and one table per service type, each
 * mapping a bedroom tier to a rate. Amounts are whole cents.
 */
module QuoteEngine {
  import opened Common

  /** What `Number(table[tier])` gives: a finite amount, or NaN / an infinity. */
  datatype Rate = Finite(cents: int) | NotFinite

  /**
   * The price table. A service type without a table stands for a falsy
   * `pricing[service_type]`; `currency` is "" when the entry is absent or empty.
   */
  datatype Pricing = Pricing(currency: string, tables: map<string, map<string, Rate>>)

  datatype Quote = Quote(amount: int, currency: string)

  datatype QuoteError = InvalidServiceType | InvalidBedrooms

  function ErrorMessage(e: QuoteError): string {
    match e
    case InvalidServiceType => "Invalid service_type"
    case InvalidBedrooms => "Invalid number_of_bedrooms"
  }

  const DefaultCurrency: string := "USD"

  /** The rate of a tier in a service table; a missing tier reads as undefined, whose Number is NaN. */
  function RateOf(table: map<string, Rate>, tier: string): Rate {
    if tier in table then table[tier] else NotFinite
  }

  /** `quoteEngine({ service_type, number_of_bedrooms })`. */
  function QuoteFor(pricing: Pricing, serviceType: string, bedrooms: string): (r: Result<Quote, QuoteError>)
    ensures r == Failure(InvalidServiceType) <==> serviceType !in pricing.tables
    ensures r == Failure(InvalidBedrooms) <==>
      serviceType in pricing.tables && RateOf(pricing.tables[serviceType], bedrooms).NotFinite?
    ensures r.Success? ==> r.value.amount == RateOf(pricing.tables[serviceType], bedrooms).cents
    ensures r.Success? ==> r.value.currency != ""
    ensures r.Success? && pricing.currency != "" ==> r.value.currency == pricing.currency
    ensures r.Success? && pricing.currency == "" ==> r.value.currency == DefaultCurrency
  {
    if serviceType !in pricing.tables then Failure(InvalidServiceType)
    else
      match RateOf(pricing.tables[serviceType], bedrooms)
      case NotFinite => Failure(InvalidBedrooms)
      case Finite(cents) =>
        Success(Quote(cents, if pricing.currency != "" then pricing.currency else DefaultCurrency))
  }

  /**
   * The service check comes first: with an unknown service type the answer is
   * 'Invalid service_type' whatever the bedroom tier, even one no table knows.
   */
  lemma ServiceCheckedFirst(pricing: Pricing, serviceType: string, b1: string, b2: string)
    requires serviceType !in pricing.tables
    ensures QuoteFor(pricing, serviceType, b1) == QuoteFor(pricing, serviceType, b2) == Failure(InvalidServiceType)
  {
  }

  /** The currency is a property of the price table alone: every successful quote carries the same one. */
  lemma CurrencyIndependentOfInputs(pricing: Pricing, s1: string, b1: string, s2: string, b2: string)
    requires QuoteFor(pricing, s1, b1).Success? && QuoteFor(pricing, s2, b2).Success?
    ensures QuoteFor(pricing, s1, b1).value.currency == QuoteFor(pricing, s2, b2).value.currency
  {
  }

  /** A quote succeeds exactly when the table has a finite rate for the pair, and then it is that rate. */
  lemma QuoteIsTableEntry(pricing: Pricing, serviceType: string, bedrooms: string, cents: int)
    ensures QuoteFor(pricing, serviceType, bedrooms).Success? && QuoteFor(pricing, serviceType, bedrooms).value.amount == cents
      <==> serviceType in pricing.tables && bedrooms in pricing.tables[serviceType]
           && pricing.tables[serviceType][bedrooms] == Finite(cents)
  {
  }
}
