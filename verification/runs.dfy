/** Where the data comes from: what every lookup served and every row stored, over every run. */
module Runs {
  import opened Wrappers
  import opened Domain
  import opened Upstream
  import opened Protocol

  /** In the run the provider answered lookup `i` with `a`, and the clock then read `at`. */
  ghost predicate Fetched(es: seq<Event>, i: nat, a: Answer, at: Time)
  {
    exists e :: e in es && Delivers(e, i, a, at)
  }

  predicate Delivers(e: Event, i: nat, a: Answer, at: Time)
  {
    e.AttemptReturns? && e.i == i && Judge(e.attempt) == Usable(a) && e.fetchedAt == at
  }

  /** The record is what the provider answered a lookup of the record's own address. */
  ghost predicate FromProvider(es: seq<Event>, requests: seq<Request>, i: nat, record: CacheRecord)
  {
    i < |requests| && requests[i].ip == record.ip && Fetched(es, i, record.answer, record.fetchedAt)
  }

  predicate Wrote(c: Commit, i: nat, record: CacheRecord)
  {
    c.writer == i && c.record == record
  }

  /** Lookup `i` has committed this record. */
  ghost predicate Committed(commits: seq<Commit>, i: nat, record: CacheRecord)
  {
    exists c :: c in commits && Wrote(c, i, record)
  }

  ghost predicate CommittedResult(commits: seq<Commit>, i: nat, result: LookupResult)
  {
    exists record :: Committed(commits, i, record) && result == AsResult(record, Provider)
  }

  /** What lookup `i` holds comes from its own provider call, and what it has served it has committed. */
  ghost predicate Traced(es: seq<Event>, s: State, i: nat)
    requires i < |s.requests|
  {
    match s.requests[i].phase
    case Saving(record, _) => FromProvider(es, s.requests, i, record)
    case Doubtful(record, _) => FromProvider(es, s.requests, i, record)
    case Stored(record) => FromProvider(es, s.requests, i, record) && Committed(s.commits, i, record)
    case Served(result) => result.source.Provider? ==> CommittedResult(s.commits, i, result)
    case _ => true
  }

  ghost predicate TracedCommit(es: seq<Event>, s: State, c: Commit)
  {
    FromProvider(es, s.requests, c.writer, c.record)
  }

  ghost predicate AllTraced(es: seq<Event>, s: State)
  {
    && (forall i: nat :: i < |s.requests| ==> Traced(es, s, i))
    && (forall c :: c in s.commits ==> TracedCommit(es, s, c))
  }

  lemma FromProviderGrows(es: seq<Event>, e: Event, requests: seq<Request>, requests': seq<Request>,
                          i: nat, record: CacheRecord)
    requires FromProvider(es, requests, i, record)
    requires i < |requests'| && requests'[i].ip == requests[i].ip
    ensures FromProvider(es + [e], requests', i, record)
  {
    var d :| d in es && Delivers(d, i, record.answer, record.fetchedAt);
    assert d in es + [e];
  }

  lemma CommittedGrows(commits: seq<Commit>, more: seq<Commit>, i: nat, record: CacheRecord)
    requires Committed(commits, i, record) && commits <= more
    ensures Committed(more, i, record)
  {
    var c :| c in commits && Wrote(c, i, record);
    assert c in more;
  }

  /** Addresses never change, and lookups and commits are never lost. */
  lemma OnlyGrows(cfg: Config, s: State, e: Event)
    requires Enabled(s, e)
    ensures var t := Apply(cfg, s, e);
            && s.commits <= t.commits && |s.requests| <= |t.requests|
            && forall i: nat :: i < |s.requests| ==> t.requests[i].ip == s.requests[i].ip
  {
    var t := Apply(cfg, s, e);
    forall i: nat | i < |s.requests| ensures i < |t.requests| && t.requests[i].ip == s.requests[i].ip {
      AddressStays(cfg, s, e, i);
    }
  }

  lemma AddressStays(cfg: Config, s: State, e: Event, i: nat)
    requires Enabled(s, e) && i < |s.requests|
    ensures i < |Apply(cfg, s, e).requests| && Apply(cfg, s, e).requests[i].ip == s.requests[i].ip
  {
    if e.Start? || e.i != i {
      OthersUnmoved(cfg, s, e, i);
    }
  }

  lemma TracedGrows(cfg: Config, es: seq<Event>, s: State, e: Event, i: nat)
    requires Enabled(s, e) && i < |s.requests| && (e.Start? || i != e.i)
    requires Traced(es, s, i)
    ensures i < |Apply(cfg, s, e).requests| && Traced(es + [e], Apply(cfg, s, e), i)
  {
    var t := Apply(cfg, s, e);
    OnlyGrows(cfg, s, e);
    OthersUnmoved(cfg, s, e, i);
    match s.requests[i].phase
    case Saving(record, _) =>
      FromProviderGrows(es, e, s.requests, t.requests, i, record);
    case Doubtful(record, _) =>
      FromProviderGrows(es, e, s.requests, t.requests, i, record);
    case Stored(record) =>
      FromProviderGrows(es, e, s.requests, t.requests, i, record);
      CommittedGrows(s.commits, t.commits, i, record);
    case Served(result) =>
      if result.source.Provider? {
        var record :| Committed(s.commits, i, record) && result == AsResult(record, Provider);
        CommittedGrows(s.commits, t.commits, i, record);
      }
    case _ =>
  }

  lemma AnswerTraced(cfg: Config, es: seq<Event>, s: State, e: Event)
    requires e.AttemptReturns? && Enabled(s, e)
    ensures Traced(es + [e], Apply(cfg, s, e), e.i)
  {
    if Judge(e.attempt).Usable? {
      var a := Judge(e.attempt).answer;
      assert Delivers(e, e.i, a, e.fetchedAt) && e in es + [e];
      assert Fetched(es + [e], e.i, a, e.fetchedAt);
    }
  }

  lemma CommitTraced(cfg: Config, es: seq<Event>, s: State, e: Event)
    requires e.CommitRow? && Enabled(s, e) && Traced(es, s, e.i)
    ensures Traced(es + [e], Apply(cfg, s, e), e.i)
  {
    var t, record := Apply(cfg, s, e), s.requests[e.i].phase.record;
    OnlyGrows(cfg, s, e);
    FromProviderGrows(es, e, s.requests, t.requests, e.i, record);
    assert Wrote(t.commits[|s.commits|], e.i, record);
  }

  /** The lookup an event moves stays traced. */
  lemma MovedTraced(cfg: Config, es: seq<Event>, s: State, e: Event)
    requires Enabled(s, e) && !e.Start? && Traced(es, s, e.i)
    ensures Traced(es + [e], Apply(cfg, s, e), e.i)
  {
    if e.AttemptReturns? {
      AnswerTraced(cfg, es, s, e);
    } else if e.UpsertFails? && s.requests[e.i].phase.Saving? {
      OnlyGrows(cfg, s, e);
      FromProviderGrows(es, e, s.requests, Apply(cfg, s, e).requests, e.i, s.requests[e.i].phase.record);
    } else if e.CommitRow? {
      CommitTraced(cfg, es, s, e);
    } else if e.Acknowledge? {
      assert Committed(s.commits, e.i, s.requests[e.i].phase.record);
    }
  }

  lemma CommitsStayTraced(cfg: Config, es: seq<Event>, s: State, e: Event)
    requires Enabled(s, e) && AllTraced(es, s)
    ensures var t := Apply(cfg, s, e); forall c :: c in t.commits ==> TracedCommit(es + [e], t, c)
  {
    var t := Apply(cfg, s, e);
    OnlyGrows(cfg, s, e);
    if Commits(e) {
      assert Traced(es, s, e.i);
    }
    forall c | c in t.commits ensures TracedCommit(es + [e], t, c) {
      if c in s.commits {
        assert TracedCommit(es, s, c);
      }
      FromProviderGrows(es, e, s.requests, t.requests, c.writer, c.record);
    }
  }

  lemma StepStaysTraced(cfg: Config, es: seq<Event>, s: State, e: Event)
    requires Enabled(s, e) && AllTraced(es, s)
    ensures AllTraced(es + [e], Apply(cfg, s, e))
  {
    var t := Apply(cfg, s, e);
    CommitsStayTraced(cfg, es, s, e);
    forall i: nat | i < |t.requests| ensures Traced(es + [e], t, i) {
      if i < |s.requests| {
        assert Traced(es, s, i);
        if e.Start? || i != e.i {
          TracedGrows(cfg, es, s, e, i);
        } else {
          MovedTraced(cfg, es, s, e);
        }
      }
    }
  }

  lemma {:induction false} RunsStayTraced(cfg: Config, es: seq<Event>)
    requires Legal(cfg, INITIAL, es)
    ensures AllTraced(es, Exec(cfg, INITIAL, es))
    decreases |es|
  {
    if es != [] {
      var n := |es| - 1;
      RunsStayTraced(cfg, es[..n]);
      StepStaysTraced(cfg, es[..n], Exec(cfg, INITIAL, es[..n]), es[n]);
      assert es[..n] + [es[n]] == es;
    }
  }

  /** In the run the provider answered some lookup of `ip` with `a`, when the clock read `at`. */
  ghost predicate Replied(es: seq<Event>, requests: seq<Request>, ip: Address, a: Answer, at: Time)
  {
    exists i: nat :: i < |requests| && requests[i].ip == ip && Fetched(es, i, a, at)
  }

  /** Every row in the table belongs to its key, expires one TTL after it was fetched, and holds a reply for its key. */
  lemma RowsAreGenuine(cfg: Config, es: seq<Event>, ip: Address)
    requires Legal(cfg, INITIAL, es) && ip in Exec(cfg, INITIAL, es).table
    ensures var s := Exec(cfg, INITIAL, es);
            var record := s.table[ip].record;
            && record.ip == ip && record.expiresAt == record.fetchedAt + cfg.ttl && FitsColumns(record.answer)
            && Replied(es, s.requests, ip, record.answer, record.fetchedAt)
  {
    RunsKeepInv(cfg, es);
    RunsStayTraced(cfg, es);
    var s := Exec(cfg, INITIAL, es);
    assert Get(s.table, ip) == RowOf(s.commits, ip);
    LastCommitTraced(cfg, es, s.commits, ip);
  }

  /** The last commit of an address, at any earlier moment of the run too, holds a reply for that address. */
  lemma LastCommitTraced(cfg: Config, es: seq<Event>, log: seq<Commit>, ip: Address)
    requires Legal(cfg, INITIAL, es) && log <= Exec(cfg, INITIAL, es).commits
    requires LastCommit(log, ip).Some?
    ensures var s := Exec(cfg, INITIAL, es);
            var record := LastCommit(log, ip).value.record;
            && record.ip == ip && record.expiresAt == record.fetchedAt + cfg.ttl && FitsColumns(record.answer)
            && Replied(es, s.requests, ip, record.answer, record.fetchedAt)
  {
    RunsKeepInv(cfg, es);
    RunsStayTraced(cfg, es);
    LastCommitIn(log, ip);
    var s, c := Exec(cfg, INITIAL, es), LastCommit(log, ip).value;
    assert c in s.commits;
    assert TracedCommit(es, s, c);
  }

  /** Commit `k` is the last one for `ip`. */
  ghost predicate IsLast(commits: seq<Commit>, ip: Address, k: nat)
  {
    k < |commits| && commits[k].record.ip == ip && forall m :: k < m < |commits| ==> commits[m].record.ip != ip
  }

  /** Commit `k` is the first one for `ip`. */
  ghost predicate IsFirst(commits: seq<Commit>, ip: Address, k: nat)
  {
    k < |commits| && commits[k].record.ip == ip && forall m :: 0 <= m < k ==> commits[m].record.ip != ip
  }

  lemma {:induction false} LastCommitIsLast(commits: seq<Commit>, ip: Address, k: nat)
    requires IsLast(commits, ip, k)
    ensures LastCommit(commits, ip) == Some(commits[k])
    decreases |commits|
  {
    var n := |commits| - 1;
    if k < n {
      assert commits[n].record.ip != ip;
      assert forall m {:trigger commits[..n][m]} :: k < m < n ==> commits[..n][m] == commits[m];
      LastCommitIsLast(commits[..n], ip, k);
    }
  }

  lemma {:induction false} FirstCommitIsFirst(commits: seq<Commit>, ip: Address, k: nat)
    requires IsFirst(commits, ip, k)
    ensures FirstCommit(commits, ip) == Some(commits[k])
    decreases k
  {
    if k > 0 {
      assert commits[0].record.ip != ip;
      assert forall m {:trigger commits[1..][m]} :: 0 <= m < k - 1 ==> commits[1..][m] == commits[m + 1];
      FirstCommitIsFirst(commits[1..], ip, k - 1);
    }
  }

  lemma TableRow(cfg: Config, es: seq<Event>, ip: Address)
    requires Legal(cfg, INITIAL, es)
    ensures Get(Exec(cfg, INITIAL, es).table, ip) == RowOf(Exec(cfg, INITIAL, es).commits, ip)
  {
    RunsKeepInv(cfg, es);
  }

  /**
    Whatever upserts for one address committed, in whatever order, its row holds the payload and the update
    time of the last and the creation time of the first.
   */
  lemma RowsConverge(cfg: Config, es: seq<Event>, ip: Address, first: nat, last: nat)
    requires Legal(cfg, INITIAL, es)
    requires IsFirst(Exec(cfg, INITIAL, es).commits, ip, first) && IsLast(Exec(cfg, INITIAL, es).commits, ip, last)
    ensures var s := Exec(cfg, INITIAL, es);
            ip in s.table && s.table[ip] == Row(s.commits[last].record, s.commits[first].stamp, s.commits[last].stamp)
  {
    TableRow(cfg, es, ip);
    FirstCommitIsFirst(Exec(cfg, INITIAL, es).commits, ip, first);
    LastCommitIsLast(Exec(cfg, INITIAL, es).commits, ip, last);
  }

  /** An address has a row exactly if an upsert for it has committed. */
  lemma RowIffCommitted(cfg: Config, es: seq<Event>, ip: Address)
    requires Legal(cfg, INITIAL, es)
    ensures var s := Exec(cfg, INITIAL, es); ip in s.table <==> exists c :: c in s.commits && c.record.ip == ip
  {
    TableRow(cfg, es, ip);
    var s := Exec(cfg, INITIAL, es);
    if ip in s.table {
      LastCommitIn(s.commits, ip);
    } else {
      FirstIffLast(s.commits, ip);
      forall c | c in s.commits ensures c.record.ip != ip {
        if c.record.ip == ip {
          CommitFound(s.commits, c);
        }
      }
    }
  }

  lemma {:induction false} CommitFound(commits: seq<Commit>, c: Commit)
    requires c in commits
    ensures LastCommit(commits, c.record.ip).Some?
    decreases |commits|
  {
    if commits[|commits| - 1] != c {
      CommitFound(commits[..|commits| - 1], c);
    }
  }

  /** What every successful lookup promises its caller. */
  ghost predicate Trustworthy(cfg: Config, es: seq<Event>, requests: seq<Request>, q: Request, result: LookupResult)
  {
    && result.ip == q.ip
    && result.expiresAt == result.fetchedAt + cfg.ttl
    && exists a :: Replied(es, requests, q.ip, a, result.fetchedAt)
                   && result.countryCode == a.countryCode && result.countryName == a.countryName
  }

  /**
    A hit is the last commit before its SELECT ran, still unexpired at the clock reading it started with,
    however many other lookups committed in between.
   */
  lemma HitsAreFresh(cfg: Config, es: seq<Event>, i: nat)
    requires Legal(cfg, INITIAL, es) && i < |Exec(cfg, INITIAL, es).requests|
    requires var phase := Exec(cfg, INITIAL, es).requests[i].phase; phase.Served? && phase.result.source.Database?
    ensures var s := Exec(cfg, INITIAL, es);
            var q := s.requests[i];
            && Trustworthy(cfg, es, s.requests, q, q.phase.result)
            && q.phase.result.expiresAt > q.started
            && q.seen <= |s.commits| && LastCommit(s.commits[..q.seen], q.ip).Some?
            && q.phase.result == AsResult(LastCommit(s.commits[..q.seen], q.ip).value.record, Database)
  {
    RunsKeepInv(cfg, es);
    var s := Exec(cfg, INITIAL, es);
    assert Sound(cfg, s.commits, s.requests[i]);
    LastCommitTraced(cfg, es, s.commits[..s.requests[i].seen], s.requests[i].ip);
  }

  /**
    A miss serves what its own provider call answered, and has committed it; it found no fresh row. Its
    result outlives the start of the lookup exactly when the clock did not fall back by the TTL or more.
   */
  lemma MissesAreFetched(cfg: Config, es: seq<Event>, i: nat)
    requires Legal(cfg, INITIAL, es) && i < |Exec(cfg, INITIAL, es).requests|
    requires var phase := Exec(cfg, INITIAL, es).requests[i].phase; phase.Served? && phase.result.source.Provider?
    ensures var s := Exec(cfg, INITIAL, es);
            var q := s.requests[i];
            && Trustworthy(cfg, es, s.requests, q, q.phase.result)
            && CommittedResult(s.commits, i, q.phase.result)
            && q.seen <= |s.commits| && !Fresh(RowOf(s.commits[..q.seen], q.ip), q.started)
            && (q.phase.result.expiresAt > q.started <==> q.phase.result.fetchedAt > q.started - cfg.ttl)
            && exists a :: Fetched(es, i, a, q.phase.result.fetchedAt)
                           && q.phase.result.countryCode == a.countryCode && q.phase.result.countryName == a.countryName
  {
    RunsKeepInv(cfg, es);
    var s := Exec(cfg, INITIAL, es);
    assert Sound(cfg, s.commits, s.requests[i]);
    var record := CommittedOnce(cfg, es, i);
  }

  /** The record a provider-sourced success has committed. */
  lemma CommittedOnce(cfg: Config, es: seq<Event>, i: nat) returns (record: CacheRecord)
    requires Legal(cfg, INITIAL, es) && i < |Exec(cfg, INITIAL, es).requests|
    requires var phase := Exec(cfg, INITIAL, es).requests[i].phase; phase.Served? && phase.result.source.Provider?
    ensures var s := Exec(cfg, INITIAL, es);
            && Committed(s.commits, i, record) && s.requests[i].phase.result == AsResult(record, Provider)
            && Fetched(es, i, record.answer, record.fetchedAt)
            && s.requests[i].ip == record.ip
  {
    RunsStayTraced(cfg, es);
    var s := Exec(cfg, INITIAL, es);
    assert Traced(es, s, i);
    record :| Committed(s.commits, i, record) && s.requests[i].phase.result == AsResult(record, Provider);
    var c :| c in s.commits && Wrote(c, i, record);
    assert TracedCommit(es, s, c);
  }

  /** The second clock reading of lookup `i`, if it has made one, is no earlier than the first. */
  ghost predicate MonotoneWithin(es: seq<Event>, i: nat, started: Time)
  {
    forall e :: e in es && e.AttemptReturns? && e.i == i && Judge(e.attempt).Usable? ==> started <= e.fetchedAt
  }

  /**
    With a positive TTL and a clock that does not run backwards within the lookup, every success expires
    strictly after the lookup started; a hit needs neither.
   */
  lemma SuccessesAreFresh(cfg: Config, es: seq<Event>, i: nat)
    requires Legal(cfg, INITIAL, es) && i < |Exec(cfg, INITIAL, es).requests|
    requires Exec(cfg, INITIAL, es).requests[i].phase.Served?
    requires var q := Exec(cfg, INITIAL, es).requests[i];
             q.phase.result.source.Database? || (cfg.ttl > 0 && MonotoneWithin(es, i, q.started))
    ensures var s := Exec(cfg, INITIAL, es);
            var q := s.requests[i];
            Trustworthy(cfg, es, s.requests, q, q.phase.result) && q.phase.result.expiresAt > q.started
  {
    var q := Exec(cfg, INITIAL, es).requests[i];
    if q.phase.result.source.Database? {
      HitsAreFresh(cfg, es, i);
    } else {
      MissesAreFetched(cfg, es, i);
      var a :| Fetched(es, i, a, q.phase.result.fetchedAt);
      var e :| e in es && Delivers(e, i, a, q.phase.result.fetchedAt);
    }
  }

  /**
    What was stored is what is served: when the SELECT of a lookup has run, its answer is a hit on the last
    commit for its address before that SELECT, if there is one and it expires after the lookup started, also
    if that commit's own upsert was reported as failed; and a miss otherwise.
   */
  lemma StoredIsServed(cfg: Config, es: seq<Event>, i: nat)
    requires Legal(cfg, INITIAL, es) && i < |Exec(cfg, INITIAL, es).requests|
    requires Exec(cfg, INITIAL, es).requests[i].phase.Selected?
    ensures var s := Exec(cfg, INITIAL, es);
            var q, t := s.requests[i], Apply(cfg, s, ReadReturns(i));
            && q.seen <= |s.commits|
            && var last := LastCommit(s.commits[..q.seen], q.ip);
               t.requests[i].phase ==
               if last.Some? && last.value.record.expiresAt > q.started
                  then Served(AsResult(last.value.record, Database))
               else Asking(0)
  {
    RunsKeepInv(cfg, es);
    var s := Exec(cfg, INITIAL, es);
    var q := s.requests[i];
    assert Sound(cfg, s.commits, q);
    FirstIffLast(s.commits[..q.seen], q.ip);
    if LastCommit(s.commits[..q.seen], q.ip).Some? {
      LastCommitIn(s.commits[..q.seen], q.ip);
    }
  }
}
