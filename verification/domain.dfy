/** The values that the lookup service, its repository, its provider and its metrics exchange. */
module Domain {

  datatype Result<+T> = Ok(value: T) | Err(failure: Failure)

  /** The canonical text of a validated public address; it is also the table's key. */
  type Address = string

  /** Points in time on one axis, in any fixed unit. */
  type Time = int

  /** A country as the provider reports it. */
  datatype Answer = Answer(countryCode: string, countryName: string, provider: string)

  datatype CacheRecord = CacheRecord(ip: Address, answer: Answer, fetchedAt: Time, expiresAt: Time)

  /** A row of the cache table; its key is the address. */
  datatype Row = Row(record: CacheRecord, createdAt: Time, updatedAt: Time)

  datatype Source = Database | Provider

  datatype LookupResult = LookupResult(ip: Address, countryCode: string, countryName: string,
                                       source: Source, fetchedAt: Time, expiresAt: Time)

  /** Why a lookup fails. */
  datatype Failure = DatabaseUnavailable | ProviderFailure(kind: ProviderError)

  datatype ProviderError = Timeout | Unavailable | Authentication | RateLimited | InvalidResponse

  datatype Operation = Read | Upsert

  /** One increment of one labelled counter. */
  datatype Sample =
    | Lookups(source: Source, success: bool)
    | ProviderRequests(success: bool)
    | ProviderErrors(kind: ProviderError)
    | DatabaseOperations(operation: Operation)
    | DatabaseErrors(operation: Operation)

  type Counters = multiset<Sample>

  function AsResult(record: CacheRecord, source: Source): LookupResult
  {
    LookupResult(record.ip, record.answer.countryCode, record.answer.countryName, source,
                 record.fetchedAt, record.expiresAt)
  }

  /** All counted provider errors, whatever their kind. */
  function ProviderErrorCount(c: Counters): nat
  {
    c[ProviderErrors(Timeout)] + c[ProviderErrors(Unavailable)] + c[ProviderErrors(Authentication)]
      + c[ProviderErrors(RateLimited)] + c[ProviderErrors(InvalidResponse)]
  }

  /** All counted lookups, whatever their source and outcome. */
  function LookupCount(c: Counters): nat
  {
    c[Lookups(Database, true)] + c[Lookups(Database, false)] + c[Lookups(Provider, true)] + c[Lookups(Provider, false)]
  }
}
