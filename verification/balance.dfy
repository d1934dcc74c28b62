/** What every counter means, and how the counters of a replica balance, in every reachable state. */
module Balance {
  import opened Domain
  import opened Upstream
  import opened Protocol

  /** A lookup in this phase has incremented counter `x`, once. */
  predicate Counts(phase: Phase, x: Sample)
  {
    match x
    case Lookups(Database, success) => success && phase.Served? && phase.result.source.Database?
    case Lookups(Provider, true) => phase.Served? && phase.result.source.Provider?
    case Lookups(Provider, false) => UpsertFailed(phase) || (phase.Failed? && phase.stage.AtProvider?)
    case ProviderRequests(true) => Unwritten(phase) || Written(phase)
    case ProviderRequests(false) => phase.Failed? && phase.stage.AtProvider?
    case ProviderErrors(kind) => phase == Failed(AtProvider(kind))
    case DatabaseOperations(Read) => !phase.Reading? && !phase.Selected?
    case DatabaseOperations(Upsert) => Written(phase)
    case DatabaseErrors(Read) => phase == Failed(AtRead)
    case DatabaseErrors(Upsert) => UpsertFailed(phase)
  }

  /** The upsert was reported as failed, whether or not it has committed or still may. */
  predicate UpsertFailed(phase: Phase)
  {
    phase.Doubtful? || phase == Failed(AtUpsert)
  }

  predicate Unwritten(phase: Phase)
  {
    phase.Saving? || phase.Stored?
  }

  /** The upsert is over, acknowledged or failed. */
  predicate Written(phase: Phase)
  {
    (phase.Served? && phase.result.source.Provider?) || UpsertFailed(phase)
  }

  predicate Missing(phase: Phase)
  {
    phase.Asking? || Unwritten(phase)
  }

  function One(b: bool): nat
  {
    if b then 1 else 0
  }

  function Share(q: Request, r: Replica, x: Sample): nat
  {
    One(q.replica == r && Counts(q.phase, x))
  }

  /** How many lookups of one replica have incremented counter `x`. */
  function Tally(requests: seq<Request>, r: Replica, x: Sample): nat
  {
    if requests == [] then 0
    else Tally(requests[..|requests| - 1], r, x) + Share(requests[|requests| - 1], r, x)
  }

  lemma {:induction false} TallyUpdate(requests: seq<Request>, i: nat, q: Request, r: Replica, x: Sample)
    requires i < |requests|
    ensures Tally(requests[i := q], r, x) == Tally(requests, r, x) - Share(requests[i], r, x) + Share(q, r, x)
    decreases |requests|
  {
    var n := |requests| - 1;
    if i == n {
      assert requests[i := q][..n] == requests[..n];
    } else {
      TallyUpdate(requests[..n], i, q, r, x);
      assert requests[i := q][..n] == requests[..n][i := q];
    }
  }

  lemma TallyAppend(requests: seq<Request>, q: Request, r: Replica, x: Sample)
    ensures Tally(requests + [q], r, x) == Tally(requests, r, x) + Share(q, r, x)
  {
    assert (requests + [q])[..|requests|] == requests;
  }

  function Value(counters: map<Replica, Counters>, r: Replica, x: Sample): nat
  {
    if r in counters then counters[r][x] else 0
  }

  /** The counter's value is the number of lookups that incremented it, or 0 if the replica counts nothing. */
  predicate Means(cfg: Config, counters: map<Replica, Counters>, requests: seq<Request>, r: Replica, x: Sample)
  {
    Value(counters, r, x) == if r in cfg.instrumented then Tally(requests, r, x) else 0
  }

  lemma MoveKeepsMeaning(cfg: Config, s: State, i: nat, phase: Phase, samples: Counters, r: Replica, x: Sample)
    requires i < |s.requests| && Means(cfg, s.counters, s.requests, r, x)
    requires One(Counts(phase, x)) == One(Counts(s.requests[i].phase, x)) + samples[x]
    ensures var t := Move(cfg, s, i, phase, samples); Means(cfg, t.counters, t.requests, r, x)
  {
    TallyUpdate(s.requests, i, s.requests[i].(phase := phase), r, x);
  }

  lemma ReadKeepsMeaning(cfg: Config, s: State, e: Event, r: Replica, x: Sample)
    requires e.Start? || e.Select? || e.ReadReturns? || e.ReadFails?
    requires Enabled(s, e) && Means(cfg, s.counters, s.requests, r, x)
    ensures var t := Apply(cfg, s, e); Means(cfg, t.counters, t.requests, r, x)
  {
    match e
    case Start(replica, ip, now) =>
      TallyAppend(s.requests, Request(replica, ip, now, 0, Reading), r, x);
    case Select(i) =>
      TallyUpdate(s.requests, i, Apply(cfg, s, e).requests[i], r, x);
    case ReadReturns(i) =>
      var q := s.requests[i];
      if Fresh(q.phase.row, q.started) {
        var hit := Served(Hit(q.ip, q.phase.row.value));
        MoveKeepsMeaning(cfg, s, i, hit, multiset{DatabaseOperations(Read), Lookups(Database, true)}, r, x);
      } else {
        MoveKeepsMeaning(cfg, s, i, Asking(0), multiset{DatabaseOperations(Read)}, r, x);
      }
    case ReadFails(i) =>
      MoveKeepsMeaning(cfg, s, i, Failed(AtRead), multiset{DatabaseErrors(Read), DatabaseOperations(Read)}, r, x);
  }

  lemma AttemptKeepsMeaning(cfg: Config, s: State, e: Event, r: Replica, x: Sample)
    requires e.AttemptReturns? && Enabled(s, e) && Means(cfg, s.counters, s.requests, r, x)
    ensures var t := Apply(cfg, s, e); Means(cfg, t.counters, t.requests, r, x)
  {
    var i, v := e.i, Judge(e.attempt);
    var q := s.requests[i];
    if !Final(v, q.phase.made + 1, cfg.maxRetries) {
      MoveKeepsMeaning(cfg, s, i, Asking(q.phase.made + 1), multiset{}, r, x);
    } else if v.Usable? {
      var saving := Saving(CacheRecord(q.ip, v.answer, e.fetchedAt, e.fetchedAt + cfg.ttl), e.stamp);
      MoveKeepsMeaning(cfg, s, i, saving, ConclusionSamples(v), r, x);
    } else {
      var samples := ConclusionSamples(v) + multiset{Lookups(Provider, false)};
      MoveKeepsMeaning(cfg, s, i, Failed(AtProvider(v.kind)), samples, r, x);
    }
  }

  lemma UpsertKeepsMeaning(cfg: Config, s: State, e: Event, r: Replica, x: Sample)
    requires e.CommitRow? || e.Acknowledge? || e.UpsertFails? || e.CommitLate? || e.Abort?
    requires Enabled(s, e) && Means(cfg, s.counters, s.requests, r, x)
    ensures var t := Apply(cfg, s, e); Means(cfg, t.counters, t.requests, r, x)
  {
    var q := s.requests[e.i];
    match e
    case CommitRow(i) =>
      MoveKeepsMeaning(cfg, s, i, Stored(q.phase.record), multiset{}, r, x);
    case Acknowledge(i) =>
      MoveKeepsMeaning(cfg, s, i, Served(AsResult(q.phase.record, Provider)),
                       multiset{DatabaseOperations(Upsert), Lookups(Provider, true)}, r, x);
    case UpsertFails(i) =>
      MoveKeepsMeaning(cfg, s, i, if q.phase.Saving? then Doubtful(q.phase.record, q.phase.stamp) else Failed(AtUpsert),
                       multiset{DatabaseErrors(Upsert), DatabaseOperations(Upsert), Lookups(Provider, false)}, r, x);
    case CommitLate(i) =>
      MoveKeepsMeaning(cfg, s, i, Failed(AtUpsert), multiset{}, r, x);
    case Abort(i) =>
      MoveKeepsMeaning(cfg, s, i, Failed(AtUpsert), multiset{}, r, x);
  }

  /**
    In every reachable state each counter of an instrumented replica equals the number of its lookups
    that are in a phase reached by incrementing it; a replica whose metrics are disabled counts nothing.
   */
  lemma {:induction false} CountersMean(cfg: Config, es: seq<Event>, r: Replica, x: Sample)
    requires Legal(cfg, INITIAL, es)
    ensures var s := Exec(cfg, INITIAL, es);
            Counted(s, r)[x] == if r in cfg.instrumented then Tally(s.requests, r, x) else 0
    decreases |es|
  {
    if es != [] {
      var n := |es| - 1;
      var s, e := Exec(cfg, INITIAL, es[..n]), es[n];
      CountersMean(cfg, es[..n], r, x);
      assert Means(cfg, s.counters, s.requests, r, x);
      StepKeepsMeaning(cfg, s, e, r, x);
      assert Exec(cfg, INITIAL, es) == Apply(cfg, s, e);
    }
  }

  lemma StepKeepsMeaning(cfg: Config, s: State, e: Event, r: Replica, x: Sample)
    requires Enabled(s, e) && Means(cfg, s.counters, s.requests, r, x)
    ensures var t := Apply(cfg, s, e); Means(cfg, t.counters, t.requests, r, x)
  {
    if e.AttemptReturns? {
      AttemptKeepsMeaning(cfg, s, e, r, x);
    } else if e.CommitRow? || e.Acknowledge? || e.UpsertFails? || e.CommitLate? || e.Abort? {
      UpsertKeepsMeaning(cfg, s, e, r, x);
    } else {
      ReadKeepsMeaning(cfg, s, e, r, x);
    }
  }

  // ---- The balance ----

  /** How many lookups of one replica are in a phase of interest. */
  function Count(requests: seq<Request>, r: Replica, p: Phase -> bool): nat
  {
    if requests == [] then 0
    else
      var q := requests[|requests| - 1];
      Count(requests[..|requests| - 1], r, p) + One(q.replica == r && p(q.phase))
  }

  /** Failed provider lookups by the error they counted. */
  function ErrorTally(requests: seq<Request>, r: Replica): nat
  {
    Tally(requests, r, ProviderErrors(Timeout)) + Tally(requests, r, ProviderErrors(Unavailable))
      + Tally(requests, r, ProviderErrors(Authentication)) + Tally(requests, r, ProviderErrors(RateLimited))
      + Tally(requests, r, ProviderErrors(InvalidResponse))
  }

  function LookupTally(requests: seq<Request>, r: Replica): nat
  {
    Tally(requests, r, Lookups(Database, true)) + Tally(requests, r, Lookups(Database, false))
      + Tally(requests, r, Lookups(Provider, true)) + Tally(requests, r, Lookups(Provider, false))
  }

  lemma {:induction false} FailuresBalance(requests: seq<Request>, r: Replica)
    ensures Tally(requests, r, Lookups(Provider, false))
            == Tally(requests, r, ProviderRequests(false)) + Tally(requests, r, DatabaseErrors(Upsert))
    decreases |requests|
  {
    if requests != [] {
      FailuresBalance(requests[..|requests| - 1], r);
    }
  }

  lemma {:induction false} UpsertsBalance(requests: seq<Request>, r: Replica)
    ensures Tally(requests, r, ProviderRequests(true))
            == Tally(requests, r, DatabaseOperations(Upsert)) + Count(requests, r, Unwritten)
    decreases |requests|
  {
    if requests != [] {
      UpsertsBalance(requests[..|requests| - 1], r);
    }
  }

  lemma {:induction false} ReadsBalance(requests: seq<Request>, r: Replica)
    ensures Tally(requests, r, DatabaseOperations(Read))
            == LookupTally(requests, r) + Tally(requests, r, DatabaseErrors(Read)) + Count(requests, r, Missing)
    decreases |requests|
  {
    if requests != [] {
      ReadsBalance(requests[..|requests| - 1], r);
    }
  }

  lemma {:induction false} ErrorsBalance(requests: seq<Request>, r: Replica)
    ensures ErrorTally(requests, r) == Tally(requests, r, ProviderRequests(false))
    decreases |requests|
  {
    if requests != [] {
      ErrorsBalance(requests[..|requests| - 1], r);
      var phase := requests[|requests| - 1].phase;
      if phase.Failed? && phase.stage.AtProvider? {
        assert phase == Failed(AtProvider(phase.stage.kind));
        match phase.stage.kind
        case Timeout =>
        case Unavailable =>
        case Authentication =>
        case RateLimited =>
        case InvalidResponse =>
      }
    }
  }

  lemma ErrorsMean(cfg: Config, es: seq<Event>, r: Replica)
    requires Legal(cfg, INITIAL, es) && r in cfg.instrumented
    ensures var s := Exec(cfg, INITIAL, es); ProviderErrorCount(Counted(s, r)) == ErrorTally(s.requests, r)
  {
    CountersMean(cfg, es, r, ProviderErrors(Timeout));
    CountersMean(cfg, es, r, ProviderErrors(Unavailable));
    CountersMean(cfg, es, r, ProviderErrors(Authentication));
    CountersMean(cfg, es, r, ProviderErrors(RateLimited));
    CountersMean(cfg, es, r, ProviderErrors(InvalidResponse));
  }

  lemma LookupsMean(cfg: Config, es: seq<Event>, r: Replica)
    requires Legal(cfg, INITIAL, es) && r in cfg.instrumented
    ensures var s := Exec(cfg, INITIAL, es); LookupCount(Counted(s, r)) == LookupTally(s.requests, r)
  {
    CountersMean(cfg, es, r, Lookups(Database, true));
    CountersMean(cfg, es, r, Lookups(Database, false));
    CountersMean(cfg, es, r, Lookups(Provider, true));
    CountersMean(cfg, es, r, Lookups(Provider, false));
  }

  /** In every reachable state the counters of an instrumented replica balance up to the lookups in flight. */
  lemma AlwaysBalanced(cfg: Config, es: seq<Event>, r: Replica)
    requires Legal(cfg, INITIAL, es) && r in cfg.instrumented
    ensures var s := Exec(cfg, INITIAL, es);
            var c := Counted(s, r);
            && c[Lookups(Provider, false)] == c[ProviderRequests(false)] + c[DatabaseErrors(Upsert)]
            && c[ProviderRequests(true)] == c[DatabaseOperations(Upsert)] + Count(s.requests, r, Unwritten)
            && c[DatabaseOperations(Read)] == LookupCount(c) + c[DatabaseErrors(Read)] + Count(s.requests, r, Missing)
            && ProviderErrorCount(c) == c[ProviderRequests(false)]
  {
    var s := Exec(cfg, INITIAL, es);
    FailuresBalance(s.requests, r);
    UpsertsBalance(s.requests, r);
    ReadsBalance(s.requests, r);
    ErrorsBalance(s.requests, r);
    ErrorsMean(cfg, es, r);
    LookupsMean(cfg, es, r);
    CountersMean(cfg, es, r, Lookups(Provider, false));
    CountersMean(cfg, es, r, ProviderRequests(false));
    CountersMean(cfg, es, r, ProviderRequests(true));
    CountersMean(cfg, es, r, DatabaseErrors(Upsert));
    CountersMean(cfg, es, r, DatabaseErrors(Read));
    CountersMean(cfg, es, r, DatabaseOperations(Upsert));
    CountersMean(cfg, es, r, DatabaseOperations(Read));
  }

  /** The caller has been told how the lookup ended. */
  predicate Reported(phase: Phase)
  {
    Finished(phase) || phase.Doubtful?
  }

  /** The replica has no lookup in flight. */
  ghost predicate Quiescent(s: State, r: Replica)
  {
    forall i :: 0 <= i < |s.requests| && s.requests[i].replica == r ==> Reported(s.requests[i].phase)
  }

  lemma {:induction false} NoneCounted(requests: seq<Request>, r: Replica)
    requires forall i :: 0 <= i < |requests| && requests[i].replica == r ==> Reported(requests[i].phase)
    ensures Count(requests, r, Unwritten) == 0 && Count(requests, r, Missing) == 0
    decreases |requests|
  {
    if requests != [] {
      NoneCounted(requests[..|requests| - 1], r);
    }
  }

  /** Whenever a replica has no lookup in flight its counters balance exactly. */
  lemma QuiescentBalance(cfg: Config, es: seq<Event>, r: Replica)
    requires Legal(cfg, INITIAL, es) && r in cfg.instrumented
    requires Quiescent(Exec(cfg, INITIAL, es), r)
    ensures var c := Counted(Exec(cfg, INITIAL, es), r);
            && c[Lookups(Provider, false)] == c[ProviderRequests(false)] + c[DatabaseErrors(Upsert)]
            && c[DatabaseOperations(Upsert)] == c[ProviderRequests(true)]
            && c[DatabaseOperations(Read)] == LookupCount(c) + c[DatabaseErrors(Read)]
            && ProviderErrorCount(c) == c[ProviderRequests(false)]
  {
    AlwaysBalanced(cfg, es, r);
    NoneCounted(Exec(cfg, INITIAL, es).requests, r);
  }
}
