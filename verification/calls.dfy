/** What one call of the service answers, stores and counts, told from what it meets alone. */
module Calls {
  import opened Domain
  import opened Upstream
  import opened Replies
  import opened Protocol
  import opened Balance
  import opened Simulation

  /** How the service tells its caller where a lookup ended. */
  predicate Reports(r: Result<LookupResult>, phase: Phase)
  {
    match phase
    case Served(result) => r == Ok(result)
    case Failed(AtProvider(kind)) => r == Err(ProviderFailure(kind))
    case Failed(_) => r == Err(DatabaseUnavailable)
    case _ => false
  }

  /** The row under the key has not expired. */
  predicate Unexpired(table: map<Address, Row>, ip: Address, now: Time)
  {
    ip in table && table[ip].record.expiresAt > now
  }

  /** A call that finds a fresh row serves it and changes nothing. */
  ghost predicate ServesRow(ip: Address, row: Row, counted: Counters, r: Result<LookupResult>)
  {
    && r == Ok(LookupResult(ip, row.record.answer.countryCode, row.record.answer.countryName, Database,
                            row.record.fetchedAt, row.record.expiresAt))
    && counted == multiset{DatabaseOperations(Read), Lookups(Database, true)}
  }

  /** A call whose provider lookup ends in a failed attempt reports why and changes nothing. */
  ghost predicate PassesFailure(last: Attempt, counted: Counters, r: Result<LookupResult>)
  {
    forall kind :: FailsWith(last, kind) ==>
      && r == Err(ProviderFailure(kind))
      && counted == multiset{DatabaseOperations(Read), ProviderErrors(kind), ProviderRequests(false),
                             Lookups(Provider, false)}
  }

  /**
    A call whose provider lookup ends in an answer stores it, timed by the reading after the answer, under
    the creation time of an earlier row, and serves it if the database acknowledges that.
   */
  ghost predicate StoresAnswer(ttl: Time, ip: Address, w: World, answer: Answer, before: map<Address, Row>,
                               after: map<Address, Row>, counted: Counters, r: Result<LookupResult>)
  {
    && after == (if w.fate.LostBefore? then before
                 else before[ip := Row(CacheRecord(ip, answer, w.fetchedAt, w.fetchedAt + ttl),
                                       if ip in before then before[ip].createdAt else w.stamp, w.stamp)])
    && (w.fate.Acknowledged? ==>
          && r == Ok(LookupResult(ip, answer.countryCode, answer.countryName, Provider, w.fetchedAt, w.fetchedAt + ttl))
          && counted == multiset{DatabaseOperations(Read), ProviderRequests(true), DatabaseOperations(Upsert),
                                 Lookups(Provider, true)})
    && (!w.fate.Acknowledged? ==>
          && r == Err(DatabaseUnavailable)
          && counted == multiset{DatabaseOperations(Read), ProviderRequests(true), DatabaseErrors(Upsert),
                                 DatabaseOperations(Upsert), Lookups(Provider, false)})
  }

  /** All of a call: the table before and after it, what it counts, the attempts it makes, and its answer. */
  ghost predicate Behaves(ttl: Time, maxRetries: nat, ip: Address, w: World, before: map<Address, Row>,
                          after: map<Address, Row>, counted: Counters, made: nat, r: Result<LookupResult>)
  {
    && (!w.readable ==>
          && r == Err(DatabaseUnavailable) && after == before
          && counted == multiset{DatabaseErrors(Read), DatabaseOperations(Read)})
    && (w.readable && Unexpired(before, ip, w.now) ==> ServesRow(ip, before[ip], counted, r) && after == before)
    && (w.readable && !Unexpired(before, ip, w.now) ==>
          && EndsAfter(w.attempts, maxRetries, made)
          && var last := w.attempts(made - 1);
             && PassesFailure(last, counted, r)
             && ((exists kind :: FailsWith(last, kind)) ==> after == before)
             && (forall answer :: Accepted(last, answer) ==>
                   StoresAnswer(ttl, ip, w, answer, before, after, counted, r)))
  }

  /** Every attempt fails for a reason or gives an answer, so that a call is told completely. */
  lemma FailsOrAnswers(a: Attempt)
    ensures (exists kind :: FailsWith(a, kind)) || (exists answer :: Accepted(a, answer))
  {
    match Judge(a)
    case Usable(answer) => UsableIffAccepted(a, answer);
    case Retryable(kind) => FailsForReason(a, kind);
    case Fatal(kind) => FailsForReason(a, kind);
  }

  /** What a lookup counts that ends in this phase. */
  function CountedBy(end: Phase): Counters
  {
    match end
    case Served(result) =>
      if result.source.Database? then multiset{DatabaseOperations(Read), Lookups(Database, true)}
      else multiset{DatabaseOperations(Read), ProviderRequests(true), DatabaseOperations(Upsert),
                    Lookups(Provider, true)}
    case Failed(AtRead) => multiset{DatabaseErrors(Read), DatabaseOperations(Read)}
    case Failed(AtProvider(kind)) =>
      multiset{DatabaseOperations(Read), ProviderErrors(kind), ProviderRequests(false), Lookups(Provider, false)}
    case Failed(AtUpsert) =>
      multiset{DatabaseOperations(Read), ProviderRequests(true), DatabaseErrors(Upsert), DatabaseOperations(Upsert),
               Lookups(Provider, false)}
    case _ => multiset{}
  }

  lemma CountedOnce(end: Phase, x: Sample)
    requires end.Served? || end.Failed?
    ensures CountedBy(end)[x] == One(Counts(end, x))
  {
    if end.Served? {
      ServedCountedOnce(end.result, x);
    } else {
      FailedCountedOnce(end.stage, x);
    }
  }

  lemma ServedCountedOnce(result: LookupResult, x: Sample)
    ensures CountedBy(Served(result))[x] == One(Counts(Served(result), x))
  {
  }

  lemma FailedCountedOnce(stage: Stage, x: Sample)
    ensures CountedBy(Failed(stage))[x] == One(Counts(Failed(stage), x))
  {
  }

  /** The phase that a lookup ends in, read as the behaviour of a call. */
  lemma OutcomeBehaves(cfg: Config, ip: Address, w: World, before: map<Address, Row>, made: nat,
                       r: Result<LookupResult>)
    requires Makes(w.attempts, cfg.maxRetries, made)
    requires Reports(r, Outcome(cfg, Get(before, ip), ip, w, made))
    ensures Behaves(cfg.ttl, cfg.maxRetries, ip, w, before, TableAfter(cfg, before, ip, w, made),
                    CountedBy(Outcome(cfg, Get(before, ip), ip, w, made)), made, r)
  {
    if w.readable && !Unexpired(before, ip, w.now) {
      MissBehaves(cfg, ip, w, before, made, r);
    }
  }

  lemma MissBehaves(cfg: Config, ip: Address, w: World, before: map<Address, Row>, made: nat, r: Result<LookupResult>)
    requires Makes(w.attempts, cfg.maxRetries, made) && w.readable && !Unexpired(before, ip, w.now)
    requires Reports(r, Outcome(cfg, Get(before, ip), ip, w, made))
    ensures Behaves(cfg.ttl, cfg.maxRetries, ip, w, before, TableAfter(cfg, before, ip, w, made),
                    CountedBy(Outcome(cfg, Get(before, ip), ip, w, made)), made, r)
  {
    var last := w.attempts(made - 1);
    MakesIffEndsAfter(w.attempts, cfg.maxRetries, made);
    forall kind ensures FailsWith(last, kind) <==> Conclusion(Judge(last)) == Err(ProviderFailure(kind)) {
      FailsForReason(last, kind);
    }
    forall answer ensures Accepted(last, answer) <==> Judge(last) == Usable(answer) {
      UsableIffAccepted(last, answer);
    }
    if Judge(last).Usable? {
      AnswerBehaves(cfg, ip, w, before, made, Judge(last).answer, r);
    }
  }

  lemma AnswerBehaves(cfg: Config, ip: Address, w: World, before: map<Address, Row>, made: nat, answer: Answer,
                      r: Result<LookupResult>)
    requires made >= 1 && Judge(w.attempts(made - 1)) == Usable(answer) && w.readable && !Unexpired(before, ip, w.now)
    requires Reports(r, Outcome(cfg, Get(before, ip), ip, w, made))
    ensures StoresAnswer(cfg.ttl, ip, w, answer, before, TableAfter(cfg, before, ip, w, made),
                         CountedBy(Outcome(cfg, Get(before, ip), ip, w, made)), r)
  {
  }
}
