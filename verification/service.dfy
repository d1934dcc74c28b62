/**
  The lookup service's objects: metrics, repository, provider and the service over them. One call of
  the service, left alone, is one continuation of a run of the protocol.
 */
module Service {
  import opened Wrappers
  import opened Domain
  import opened Upstream
  import opened Replies
  import opened Protocol
  import opened Balance
  import opened Simulation
  import opened Calls

  /** How many times each counter was incremented between two states of an object's counters. */
  ghost predicate Grew(before: Counters, after: Counters, enabled: bool, samples: Counters)
  {
    forall x :: after[x] == before[x] + if enabled then samples[x] else 0
  }

  class ApplicationMetrics {
    const enabled: bool
    var counts: Counters

    constructor (enabled: bool)
      ensures this.enabled == enabled && counts == multiset{}
    {
      this.enabled := enabled;
      counts := multiset{};
    }

    method Increment(x: Sample)
      modifies this
      ensures Grew(old(counts), counts, enabled, multiset{x})
    {
      if enabled {
        counts := counts[x := counts[x] + 1];
      }
    }
  }

  /** The database, which all replicas share. */
  class Database {
    var table: map<Address, Row>

    constructor ()
      ensures table == map[]
    {
      table := map[];
    }
  }

  class PostgreSQLLookupRepository {
    const database: Database
    const metrics: ApplicationMetrics

    constructor (database: Database, metrics: ApplicationMetrics)
      ensures this.database == database && this.metrics == metrics
    {
      this.database, this.metrics := database, metrics;
    }

    method Get(ip: Address, reachable: bool) returns (cached: Result<Option<CacheRecord>>)
      modifies metrics
      ensures reachable ==>
                cached == Ok(if ip in database.table then Some(database.table[ip].record.(ip := ip)) else None)
      ensures !reachable ==> cached == Err(DatabaseUnavailable)
      ensures Grew(old(metrics.counts), metrics.counts, metrics.enabled,
                   if reachable then multiset{DatabaseOperations(Read)}
                   else multiset{DatabaseErrors(Read), DatabaseOperations(Read)})
    {
      if reachable {
        if ip in database.table {
          var row := database.table[ip];
          cached := Ok(Some(CacheRecord(ip, row.record.answer, row.record.fetchedAt, row.record.expiresAt)));
        } else {
          cached := Ok(None);
        }
      } else {
        metrics.Increment(DatabaseErrors(Read));
        cached := Err(DatabaseUnavailable);
      }
      metrics.Increment(DatabaseOperations(Read));
    }

    method Upsert(record: CacheRecord, now: Time, fate: Fate) returns (done: bool)
      modifies database, metrics
      ensures done <==> fate.Acknowledged?
      ensures database.table ==
              if fate.LostBefore? then old(database.table)
              else old(database.table)[record.ip := Upserted(Protocol.Get(old(database.table), record.ip), record, now)]
      ensures !fate.LostBefore? ==>
                && record.ip in database.table && database.table[record.ip].record == record
                && database.table[record.ip].updatedAt == now
                && database.table[record.ip].createdAt ==
                   if record.ip in old(database.table) then old(database.table)[record.ip].createdAt else now
      ensures Grew(old(metrics.counts), metrics.counts, metrics.enabled,
                   if done then multiset{DatabaseOperations(Operation.Upsert)}
                   else multiset{DatabaseErrors(Operation.Upsert), DatabaseOperations(Operation.Upsert)})
    {
      if !fate.LostBefore? {
        if record.ip in database.table {
          var createdAt := database.table[record.ip].createdAt;
          database.table := database.table[record.ip := Row(record, createdAt, now)];
        } else {
          database.table := database.table[record.ip := Row(record, now, now)];
        }
      }
      done := fate.Acknowledged?;
      if !done {
        metrics.Increment(DatabaseErrors(Operation.Upsert));
      }
      metrics.Increment(DatabaseOperations(Operation.Upsert));
    }
  }

  /** What one HTTP request comes to: a response, an error worth a retry, or an error already counted. */
  datatype HttpOutcome = Response(body: Body) | Retry(kind: ProviderError) | Raised(kind: ProviderError)

  function Meaning(outcome: HttpOutcome): Verdict
  {
    match outcome
    case Response(body) => (match Parse(body) case Some(a) => Usable(a) case None => Fatal(InvalidResponse))
    case Retry(kind) => Retryable(kind)
    case Raised(kind) => Fatal(kind)
  }

  /** What the request itself has counted. */
  function Early(outcome: HttpOutcome): Counters
  {
    if outcome.Raised? then multiset{ProviderErrors(outcome.kind)} else multiset{}
  }

  /** What is still to be counted when the last request is over. */
  function Late(outcome: HttpOutcome): Counters
  {
    match Meaning(outcome)
    case Usable(_) => multiset{ProviderRequests(true)}
    case Retryable(kind) => multiset{ProviderErrors(kind), ProviderRequests(false)}
    case Fatal(kind) =>
      if outcome.Raised? then multiset{ProviderRequests(false)}
      else multiset{ProviderErrors(kind), ProviderRequests(false)}
  }

  lemma EarlyAndLate(outcome: HttpOutcome, before: Counters, middle: Counters, after: Counters, enabled: bool)
    requires Grew(before, middle, enabled, Early(outcome)) && Grew(middle, after, enabled, Late(outcome))
    ensures Grew(before, after, enabled, ConclusionSamples(Meaning(outcome)))
  {
  }

  /** Every failed provider lookup has counted exactly one error. */
  predicate Settled(c: Counters)
  {
    ProviderErrorCount(c) == c[ProviderRequests(false)]
  }

  lemma StaysSettled(v: Verdict, before: Counters, after: Counters, enabled: bool)
    requires Grew(before, after, enabled, ConclusionSamples(v))
    ensures Settled(before) ==> Settled(after)
  {
    if !v.Usable? {
      match v.kind
      case Timeout =>
      case Unavailable =>
      case Authentication =>
      case RateLimited =>
      case InvalidResponse =>
    }
  }

  lemma FailureGrew(before: Counters, middle: Counters, after: Counters, enabled: bool, kind: ProviderError)
    requires Grew(before, middle, enabled, multiset{ProviderErrors(kind)})
    requires Grew(middle, after, enabled, multiset{ProviderRequests(false)})
    ensures Grew(before, after, enabled, multiset{ProviderErrors(kind), ProviderRequests(false)})
  {
  }

  /** The lookup ends with what the attempt answers, or for the reason that it fails. */
  ghost predicate Concludes(last: Attempt, result: Result<Answer>)
  {
    && (forall answer :: result == Ok(answer) <==> Accepted(last, answer))
    && (forall kind :: result == Err(ProviderFailure(kind)) <==> FailsWith(last, kind))
  }

  lemma ConclusionConcludes(a: Attempt)
    ensures Concludes(a, Conclusion(Judge(a)))
  {
    forall answer ensures Conclusion(Judge(a)) == Ok(answer) <==> Accepted(a, answer) {
      UsableIffAccepted(a, answer);
    }
    forall kind ensures Conclusion(Judge(a)) == Err(ProviderFailure(kind)) <==> FailsWith(a, kind) {
      FailsForReason(a, kind);
    }
  }

  class IPinfoLiteProvider {
    const maxRetries: nat
    const metrics: ApplicationMetrics

    constructor (maxRetries: nat, metrics: ApplicationMetrics)
      ensures this.maxRetries == maxRetries && this.metrics == metrics
    {
      this.maxRetries, this.metrics := maxRetries, metrics;
    }

    method Request(attempt: Attempt) returns (outcome: HttpOutcome)
      modifies metrics
      ensures Meaning(outcome) == Judge(attempt) && (outcome.Retry? <==> Judge(attempt).Retryable?)
      ensures outcome == Retry(Timeout) <==> attempt.TimedOut?
      ensures outcome == Retry(Unavailable) <==> attempt.TransportError? || (attempt.Reply? && attempt.status >= 500)
      ensures outcome == Raised(Authentication) <==> attempt.Reply? && attempt.status in {401, 403}
      ensures outcome == Raised(RateLimited) <==> attempt.Reply? && attempt.status == 429
      ensures outcome == Raised(InvalidResponse) <==>
              attempt.Reply? && 400 <= attempt.status < 500 && attempt.status !in {401, 403, 429}
      ensures outcome.Response? <==> attempt.Reply? && attempt.status < 400
      ensures outcome.Response? ==> outcome.body == attempt.body
      ensures Grew(old(metrics.counts), metrics.counts, metrics.enabled, Early(outcome))
      ensures Grew(old(metrics.counts), metrics.counts, metrics.enabled,
                   if outcome.Raised? then multiset{ProviderErrors(outcome.kind)} else multiset{})
    {
      match attempt
      case TimedOut => return Retry(Timeout);
      case TransportError => return Retry(Unavailable);
      case Reply(status, body) =>
        if status in {401, 403} {
          metrics.Increment(ProviderErrors(Authentication));
          return Raised(Authentication);
        }
        if status == 429 {
          metrics.Increment(ProviderErrors(RateLimited));
          return Raised(RateLimited);
        }
        if status >= 500 {
          return Retry(Unavailable);
        }
        if status >= 400 {
          metrics.Increment(ProviderErrors(InvalidResponse));
          return Raised(InvalidResponse);
        }
        return Response(body);
    }

    /** The retry loop: stops at the first attempt that is final, or when the retries are used up. */
    method Attempts(attempts: nat -> Attempt) returns (outcome: HttpOutcome, made: nat, waited: nat)
      modifies metrics
      ensures Makes(attempts, maxRetries, made)
      ensures Meaning(outcome) == Judge(attempts(made - 1))
      ensures waited == TotalPause(made - 1)
      ensures Grew(old(metrics.counts), metrics.counts, metrics.enabled, Early(outcome))
    {
      made, waited := 1, 0;
      outcome := Request(attempts(0));
      while outcome.Retry? && made < maxRetries + 1
        invariant 1 <= made <= maxRetries + 1
        invariant Going(attempts, maxRetries, made - 1)
        invariant waited == TotalPause(made - 1)
        invariant Meaning(outcome) == Judge(attempts(made - 1)) && (outcome.Retry? <==> Meaning(outcome).Retryable?)
        invariant Grew(old(metrics.counts), metrics.counts, metrics.enabled, Early(outcome))
      {
        waited := waited + Pause(made);
        made := made + 1;
        outcome := Request(attempts(made - 1));
      }
      assert StopsAfter(attempts, maxRetries, made - 1);
    }

    /**
      MeetsReplies until an attempt is final or the retries are used up; the last attempt alone decides the
      result and what is counted.
     */
    method Lookup(attempts: nat -> Attempt) returns (result: Result<Answer>, made: nat, waited: nat)
      modifies metrics
      ensures Makes(attempts, maxRetries, made) && EndsAfter(attempts, maxRetries, made)
      ensures result == Conclusion(Judge(attempts(made - 1)))
      ensures result.Err? ==> result.failure.ProviderFailure?
      ensures Concludes(attempts(made - 1), result)
      ensures waited == TotalPause(made - 1)
      ensures Grew(old(metrics.counts), metrics.counts, metrics.enabled, ConclusionSamples(Judge(attempts(made - 1))))
      ensures Grew(old(metrics.counts), metrics.counts, metrics.enabled,
                   if result.Ok? then multiset{ProviderRequests(true)}
                   else multiset{ProviderErrors(result.failure.kind), ProviderRequests(false)})
      ensures Settled(old(metrics.counts)) ==> Settled(metrics.counts)
    {
      var outcome;
      outcome, made, waited := Attempts(attempts);
      ghost var middle := metrics.counts;
      result := Account(outcome);
      EarlyAndLate(outcome, old(metrics.counts), middle, metrics.counts, metrics.enabled);
      StaysSettled(Meaning(outcome), old(metrics.counts), metrics.counts, metrics.enabled);
      ConclusionConcludes(attempts(made - 1));
      MakesIffEndsAfter(attempts, maxRetries, made);
    }

    /** The end of a lookup: what was not counted yet is counted, and the request itself always is. */
    method Account(outcome: HttpOutcome) returns (result: Result<Answer>)
      modifies metrics
      ensures result == Conclusion(Meaning(outcome))
      ensures Grew(old(metrics.counts), metrics.counts, metrics.enabled, Late(outcome))
    {
      match outcome {
        case Raised(kind) =>
          result := Err(ProviderFailure(kind));
        case Retry(kind) =>
          metrics.Increment(ProviderErrors(kind));
          result := Err(ProviderFailure(kind));
        case Response(body) =>
          var parsed := Parse(body);
          if parsed.Some? {
            result := Ok(parsed.value);
          } else {
            metrics.Increment(ProviderErrors(InvalidResponse));
            result := Err(ProviderFailure(InvalidResponse));
          }
      }
      ghost var middle := metrics.counts;
      metrics.Increment(ProviderRequests(result.Ok?));
      if !outcome.Raised? && result.Err? {
        FailureGrew(old(metrics.counts), middle, metrics.counts, metrics.enabled, result.failure.kind);
      }
    }
  }

  /** The counters grew by what a lookup counts on its way from one phase to another. */
  ghost predicate GrewAlong(before: Counters, after: Counters, enabled: bool, start: Phase, end: Phase)
  {
    forall x :: after[x] == before[x] + if enabled then One(Counts(end, x)) - One(Counts(start, x)) else 0
  }

  lemma Along(before: Counters, middle: Counters, after: Counters, enabled: bool, start: Phase, via: Phase, end: Phase)
    requires GrewAlong(before, middle, enabled, start, via) && GrewAlong(middle, after, enabled, via, end)
    ensures GrewAlong(before, after, enabled, start, end)
  {
  }

  lemma AlongProvider(before: Counters, after: Counters, enabled: bool, v: Verdict, saving: Phase)
    requires v.Usable? && saving.Saving? && Grew(before, after, enabled, ConclusionSamples(v))
    ensures GrewAlong(before, after, enabled, Asking(0), saving)
  {
  }

  lemma AlongProviderFailure(before: Counters, middle: Counters, after: Counters, enabled: bool, v: Verdict)
    requires !v.Usable? && Grew(before, middle, enabled, ConclusionSamples(v))
    requires Grew(middle, after, enabled, multiset{Lookups(Provider, false)})
    ensures GrewAlong(before, after, enabled, Asking(0), Failed(AtProvider(v.kind)))
  {
  }

  lemma AlongUpsertFailure(before: Counters, middle: Counters, after: Counters, enabled: bool, saving: Phase)
    requires saving.Saving?
    requires Grew(before, middle, enabled, multiset{DatabaseErrors(Upsert), DatabaseOperations(Upsert)})
    requires Grew(middle, after, enabled, multiset{Lookups(Provider, false)})
    ensures GrewAlong(before, after, enabled, saving, Failed(AtUpsert))
  {
  }

  lemma AlongSuccess(before: Counters, middle: Counters, after: Counters, enabled: bool,
                     saving: Phase, result: LookupResult)
    requires saving.Saving? && result.source.Provider?
    requires Grew(before, middle, enabled, multiset{DatabaseOperations(Upsert)})
    requires Grew(middle, after, enabled, multiset{Lookups(Provider, true)})
    ensures GrewAlong(before, after, enabled, saving, Served(result))
  {
  }

  lemma AlongHit(before: Counters, middle: Counters, after: Counters, enabled: bool, result: LookupResult)
    requires result.source.Database?
    requires Grew(before, middle, enabled, multiset{DatabaseOperations(Read)})
    requires Grew(middle, after, enabled, multiset{Lookups(Database, true)})
    ensures GrewAlong(before, after, enabled, Reading, Served(result))
  {
  }

  lemma AlongRead(before: Counters, after: Counters, enabled: bool, readable: bool)
    requires Grew(before, after, enabled, if readable then multiset{DatabaseOperations(Read)}
                                          else multiset{DatabaseErrors(Read), DatabaseOperations(Read)})
    ensures GrewAlong(before, after, enabled, Reading, if readable then Asking(0) else Failed(AtRead))
  {
  }

  /** A run that has come to this table and these counters of the replica. */
  ghost predicate ComesTo(cfg: Config, run: seq<Event>, replica: Replica, table: map<Address, Row>, counts: Counters)
  {
    && Legal(cfg, INITIAL, run)
    && Exec(cfg, INITIAL, run).table == table && Counted(Exec(cfg, INITIAL, run), replica) == counts
  }

  /** One more lookup: it is over, and `r` reports how it ended. */
  ghost predicate OneLookupMore(s: State, t: State, replica: Replica, ip: Address, now: Time, r: Result<LookupResult>)
  {
    && |t.requests| == |s.requests| + 1 && t.requests[..|s.requests|] == s.requests
    && var q := t.requests[|s.requests|];
       q.replica == replica && q.ip == ip && q.started == now && Finished(q.phase) && Reports(r, q.phase)
  }

  lemma CountedGrew(before: Counters, after: Counters, enabled: bool, end: Phase)
    requires GrewAlong(before, after, enabled, Reading, end) && (end.Served? || end.Failed?)
    ensures Grew(before, after, enabled, CountedBy(end))
  {
    forall x ensures after[x] == before[x] + if enabled then CountedBy(end)[x] else 0 {
      CountedGrewBy(before, after, enabled, end, x);
    }
  }

  lemma CountedGrewBy(before: Counters, after: Counters, enabled: bool, end: Phase, x: Sample)
    requires end.Served? || end.Failed?
    requires after[x] == before[x] + if enabled then One(Counts(end, x)) - One(Counts(Reading, x)) else 0
    ensures after[x] == before[x] + if enabled then CountedBy(end)[x] else 0
  {
    CountedOnce(end, x);
    NothingCounted(x);
  }

  lemma NothingCounted(x: Sample)
    ensures !Counts(Reading, x)
  {
  }

  /** A lookup that ends by itself as the protocol says is the continuation of any run. */
  lemma Refines(cfg: Config, past: seq<Event>, replica: Replica, table: map<Address, Row>, counts: Counters,
                ip: Address, w: World, made: nat, counts': Counters, r: Result<LookupResult>) returns (run: seq<Event>)
    requires ComesTo(cfg, past, replica, table, counts) && Makes(w.attempts, cfg.maxRetries, made)
    requires Reports(r, Outcome(cfg, Protocol.Get(table, ip), ip, w, made))
    requires GrewAlong(counts, counts', replica in cfg.instrumented, Reading,
                       Outcome(cfg, Protocol.Get(table, ip), ip, w, made))
    ensures past <= run && ComesTo(cfg, run, replica, TableAfter(cfg, table, ip, w, made), counts')
    ensures OneLookupMore(Exec(cfg, INITIAL, past), Exec(cfg, INITIAL, run), replica, ip, w.now, r)
    ensures MeetsReplies(run, |past|, |Exec(cfg, INITIAL, past).requests|, w, if Misses(table, ip, w) then made else 0)
  {
    var q;
    run, q := AskingLookup(cfg, past, replica, ip, w, made);
    CountersAfter(cfg, past, run, q, counts');
  }

  /** The continuation of a run by one lookup, and what the provider answers in it. */
  lemma AskingLookup(cfg: Config, past: seq<Event>, replica: Replica, ip: Address, w: World, made: nat)
    returns (run: seq<Event>, q: Request)
    requires Legal(cfg, INITIAL, past) && Makes(w.attempts, cfg.maxRetries, made)
    ensures past <= run && Legal(cfg, INITIAL, run)
    ensures var s, t := Exec(cfg, INITIAL, past), Exec(cfg, INITIAL, run);
            && t.requests == s.requests + [q]
            && q.replica == replica && q.ip == ip && q.started == w.now
            && q.phase == Outcome(cfg, Protocol.Get(s.table, ip), ip, w, made)
            && t.table == TableAfter(cfg, s.table, ip, w, made)
    ensures var s := Exec(cfg, INITIAL, past);
            MeetsReplies(run, |past|, |s.requests|, w, if Misses(s.table, ip, w) then made else 0)
  {
    var s := Exec(cfg, INITIAL, past);
    run, q := WholeLookup(cfg, past, replica, ip, w, made);
    AskedFrom(past, run, |s.requests|, replica, ip, w, Misses(s.table, ip, w), made,
              AfterAttempts(cfg, ip, w, made).Saving?);
  }

  /** The row can be read, and there is none that is fresh. */
  predicate Misses(table: map<Address, Row>, ip: Address, w: World)
  {
    w.readable && !Unexpired(table, ip, w.now)
  }

  /**
    In the run from position `n` on, the provider answers lookup `i` exactly `made` times, one after the other
    from the fourth event on, with the attempts that the call meets in their order, and at its clock readings.
   */
  ghost predicate MeetsReplies(run: seq<Event>, n: nat, i: nat, w: World, made: nat)
  {
    && (made > 0 ==> n + 3 + made <= |run|)
    && (forall k :: 0 <= k < made ==>
          n + 3 + k < |run| && run[n + 3 + k] == AttemptReturns(i, w.attempts(k), w.fetchedAt, w.stamp))
    && (forall k :: n <= k < |run| && run[k].AttemptReturns? ==> n + 3 <= k < n + 3 + made)
  }

  lemma AskedFrom(past: seq<Event>, run: seq<Event>, i: nat, replica: Replica, ip: Address, w: World, misses: bool,
                  made: nat, saves: bool)
    requires misses ==> w.readable
    requires run == past + (if w.readable then [Start(replica, ip, w.now), Select(i), ReadReturns(i)]
                            else [Start(replica, ip, w.now), ReadFails(i)])
                    + (if misses then Answers(i, w, 0, made) else [])
                    + (if misses && saves then Storing(i, w.fate) else [])
    ensures MeetsReplies(run, |past|, i, w, if misses then made else 0)
  {
    var first := if w.readable then [Start(replica, ip, w.now), Select(i), ReadReturns(i)]
                 else [Start(replica, ip, w.now), ReadFails(i)];
    AskedBetween(past, first, if misses then Answers(i, w, 0, made) else [],
                 if misses && saves then Storing(i, w.fate) else [], i, w);
  }

  lemma AskedBetween(past: seq<Event>, first: seq<Event>, asked: seq<Event>, stored: seq<Event>, i: nat, w: World)
    requires asked != [] ==> |first| == 3
    requires forall k :: 0 <= k < |asked| ==> asked[k] == AttemptReturns(i, w.attempts(k), w.fetchedAt, w.stamp)
    requires forall k :: 0 <= k < |first| ==> !first[k].AttemptReturns?
    requires forall k :: 0 <= k < |stored| ==> !stored[k].AttemptReturns?
    ensures MeetsReplies(past + first + asked + stored, |past|, i, w, |asked|)
  {
    var run, n := past + first + asked + stored, |past| + |first|;
    forall k | |past| <= k < n ensures run[k] == first[k - |past|] {
    }
    forall k | n <= k < n + |asked| ensures run[k] == asked[k - n] {
    }
    forall k | n + |asked| <= k < |run| ensures run[k] == stored[k - n - |asked|] {
    }
  }

  lemma SameSettings(cfg: Config, table: map<Address, Row>, ip: Address, w: World, made: nat)
    requires made >= 1
    ensures var other := Config(cfg.ttl, cfg.maxRetries, {});
            && Outcome(other, Protocol.Get(table, ip), ip, w, made)
               == Outcome(cfg, Protocol.Get(table, ip), ip, w, made)
            && TableAfter(other, table, ip, w, made) == TableAfter(cfg, table, ip, w, made)
  {
  }

  class IPLookupService {
    const repository: PostgreSQLLookupRepository
    const provider: IPinfoLiteProvider
    const ttl: Time
    const metrics: ApplicationMetrics

    ghost predicate Valid()
    {
      repository.metrics == metrics && provider.metrics == metrics
    }

    constructor (repository: PostgreSQLLookupRepository, provider: IPinfoLiteProvider, ttl: Time,
                 metrics: ApplicationMetrics)
      requires repository.metrics == metrics && provider.metrics == metrics
      ensures Valid() && this.repository == repository && this.provider == provider && this.ttl == ttl
    {
      this.repository, this.provider, this.ttl, this.metrics := repository, provider, ttl, metrics;
    }

    /** The end of the miss path: store the record and report. */
    method Save(record: CacheRecord, stamp: Time, fate: Fate) returns (r: Result<LookupResult>)
      requires Valid()
      modifies repository.database, metrics
      ensures Reports(r, AfterUpsert(record, fate))
      ensures GrewAlong(old(metrics.counts), metrics.counts, metrics.enabled, Saving(record, stamp),
                        AfterUpsert(record, fate))
      ensures repository.database.table ==
              if fate.LostBefore? then old(repository.database.table)
              else old(repository.database.table)
                   [record.ip := Upserted(Protocol.Get(old(repository.database.table), record.ip), record, stamp)]
    {
      var done := repository.Upsert(record, stamp, fate);
      ghost var upserted := metrics.counts;
      metrics.Increment(Lookups(Provider, done));
      if done {
        var result := AsResult(record, Provider);
        AlongSuccess(old(metrics.counts), upserted, metrics.counts, metrics.enabled, Saving(record, stamp), result);
        r := Ok(result);
      } else {
        AlongUpsertFailure(old(metrics.counts), upserted, metrics.counts, metrics.enabled, Saving(record, stamp));
        r := Err(DatabaseUnavailable);
      }
    }

    /** The miss path: ask the provider, store the answer, report. */
    method Miss(ip: Address, w: World) returns (r: Result<LookupResult>, ghost made: nat)
      requires Valid()
      modifies repository.database, metrics
      ensures Makes(w.attempts, provider.maxRetries, made)
      ensures var cfg := Config(ttl, provider.maxRetries, {});
              var asked := AfterAttempts(cfg, ip, w, made);
              var end := if asked.Saving? then AfterUpsert(asked.record, w.fate) else asked;
              && Reports(r, end)
              && GrewAlong(old(metrics.counts), metrics.counts, metrics.enabled, Asking(0), end)
              && repository.database.table ==
                 (if asked.Saving? && !w.fate.LostBefore? then
                    old(repository.database.table)
                    [ip := Upserted(Protocol.Get(old(repository.database.table), ip), asked.record, asked.stamp)]
                  else old(repository.database.table))
    {
      var answer, attempts, waited := provider.Lookup(w.attempts);
      made := attempts;
      ghost var v, asked := Judge(w.attempts(made - 1)), metrics.counts;
      if answer.Err? {
        metrics.Increment(Lookups(Provider, false));
        AlongProviderFailure(old(metrics.counts), asked, metrics.counts, metrics.enabled, v);
        r := Err(answer.failure);
      } else {
        var record := CacheRecord(ip, answer.value, w.fetchedAt, w.fetchedAt + ttl);
        ghost var saving := Saving(record, w.stamp);
        AlongProvider(old(metrics.counts), metrics.counts, metrics.enabled, v, saving);
        r := Save(record, w.stamp, w.fate);
        Along(old(metrics.counts), asked, metrics.counts, metrics.enabled, Asking(0), saving,
              AfterUpsert(record, w.fate));
      }
    }

    /** One lookup by itself, told by where it ends. */
    method LookupAlone(ip: Address, w: World) returns (r: Result<LookupResult>, ghost made: nat)
      requires Valid()
      modifies repository.database, metrics
      ensures Makes(w.attempts, provider.maxRetries, made)
      ensures var cfg := Config(ttl, provider.maxRetries, {});
              var table := old(repository.database.table);
              var end := Outcome(cfg, Protocol.Get(table, ip), ip, w, made);
              && Reports(r, end)
              && GrewAlong(old(metrics.counts), metrics.counts, metrics.enabled, Reading, end)
              && repository.database.table == TableAfter(cfg, table, ip, w, made)
    {
      made := AttemptsExist(w.attempts, provider.maxRetries);
      var cached := repository.Get(ip, w.readable);
      ghost var read := metrics.counts;
      AlongRead(old(metrics.counts), read, metrics.enabled, w.readable);
      if cached.Err? {
        return Err(cached.failure), made;
      }
      if cached.value.Some? && cached.value.value.expiresAt > w.now {
        var hit := AsResult(cached.value.value, Database);
        metrics.Increment(Lookups(Database, true));
        AlongHit(old(metrics.counts), read, metrics.counts, metrics.enabled, hit);
        return Ok(hit), made;
      }
      r, made := Miss(ip, w);
      ghost var cfg := Config(ttl, provider.maxRetries, {});
      ghost var asked := AfterAttempts(cfg, ip, w, made);
      Along(old(metrics.counts), read, metrics.counts, metrics.enabled, Reading, Asking(0),
            if asked.Saving? then AfterUpsert(asked.record, w.fate) else asked);
    }

    /** The objects hold what the run has come to. */
    ghost predicate Holds(cfg: Config, replica: Replica, run: seq<Event>)
      reads repository.database, metrics
    {
      && cfg.ttl == ttl && cfg.maxRetries == provider.maxRetries
      && (replica in cfg.instrumented <==> metrics.enabled)
      && ComesTo(cfg, run, replica, repository.database.table, metrics.counts)
    }

    /**
      One call of the service behaves as told from what it meets alone, and continues the run its objects have
      come to by one lookup, which starts at the call's first clock reading, meets the provider's replies in
      their order and the other readings, and ends as the call reports; so every result about runs holds of it.
     */
    method Lookup(ip: Address, w: World, ghost cfg: Config, ghost replica: Replica, ghost past: seq<Event>)
      returns (r: Result<LookupResult>, ghost run: seq<Event>, ghost made: nat, ghost counted: Counters)
      requires Valid() && Holds(cfg, replica, past)
      modifies repository.database, metrics
      ensures Behaves(ttl, provider.maxRetries, ip, w, old(repository.database.table), repository.database.table,
                      counted, made, r)
      ensures Grew(old(metrics.counts), metrics.counts, metrics.enabled, counted)
      ensures Holds(cfg, replica, run) && past <= run
      ensures OneLookupMore(Exec(cfg, INITIAL, past), Exec(cfg, INITIAL, run), replica, ip, w.now, r)
      ensures MeetsReplies(run, |past|, |Exec(cfg, INITIAL, past).requests|, w,
                   if Misses(old(repository.database.table), ip, w) then made else 0)
    {
      ghost var table, counts := repository.database.table, metrics.counts;
      r, made := LookupAlone(ip, w);
      SameSettings(cfg, table, ip, w, made);
      ghost var end := Outcome(cfg, Protocol.Get(table, ip), ip, w, made);
      OutcomeBehaves(cfg, ip, w, table, made, r);
      counted := CountedBy(end);
      CountedGrew(counts, metrics.counts, metrics.enabled, end);
      run := Refines(cfg, past, replica, table, counts, ip, w, made, metrics.counts, r);
    }
  }
}
