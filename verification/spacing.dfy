/** How often the provider can be asked: lookups of one address that do not overlap are a TTL apart. */
module Spacing {
  import opened Domain
  import opened Upstream
  import opened Protocol
  import opened Runs

  /** All lookups of `ip` are over. */
  ghost predicate Idle(requests: seq<Request>, ip: Address)
  {
    forall i :: 0 <= i < |requests| && requests[i].ip == ip ==> Finished(requests[i].phase)
  }

  /** The event starts no lookup of `ip` beside another one. */
  ghost predicate StartsAlone(s: State, e: Event, ip: Address)
  {
    e.Start? && e.ip == ip ==> Idle(s.requests, ip)
  }

  /** The event is not the second clock reading of a lookup of `ip` whose clock has fallen back since the first. */
  predicate ReadsOnward(s: State, e: Event, ip: Address)
    requires Enabled(s, e)
  {
    e.AttemptReturns? && s.requests[e.i].ip == ip && Judge(e.attempt).Usable? ==> s.requests[e.i].started <= e.fetchedAt
  }

  /** Lookups of `ip` never overlap in the run. */
  ghost predicate Separate(cfg: Config, es: seq<Event>, ip: Address)
    requires Legal(cfg, INITIAL, es)
    decreases |es|
  {
    es != [] ==>
      var n := |es| - 1;
      Separate(cfg, es[..n], ip) && StartsAlone(Exec(cfg, INITIAL, es[..n]), es[n], ip)
  }

  /**
    Within each lookup of `ip` in the run the clock does not fall back. The readings of different lookups, which
    may be those of different replicas, need not agree in any way.
   */
  ghost predicate Monotone(cfg: Config, es: seq<Event>, ip: Address)
    requires Legal(cfg, INITIAL, es)
    decreases |es|
  {
    es != [] ==>
      var n := |es| - 1;
      Monotone(cfg, es[..n], ip) && ReadsOnward(Exec(cfg, INITIAL, es[..n]), es[n], ip)
  }

  ghost predicate Calm(cfg: Config, es: seq<Event>, ip: Address)
    requires Legal(cfg, INITIAL, es)
  {
    Separate(cfg, es, ip) && Monotone(cfg, es, ip)
  }

  /** The row that the event replaces was fetched at least `gap` before the lookup that commits started. */
  predicate Guards(s: State, e: Event, ip: Address, gap: Time)
    requires Enabled(s, e)
  {
    Commits(e) && s.requests[e.i].ip == ip && ip in s.table ==>
      s.table[ip].record.fetchedAt + gap <= s.requests[e.i].started
  }

  /** Every commit for `ip` in the run replaces such a row. */
  ghost predicate Guarded(cfg: Config, es: seq<Event>, ip: Address, gap: Time)
    requires Legal(cfg, INITIAL, es)
    decreases |es|
  {
    es != [] ==>
      var n := |es| - 1;
      Guarded(cfg, es[..n], ip, gap) && Guards(Exec(cfg, INITIAL, es[..n]), es[n], ip, gap)
  }

  /** Only the latest lookup of `ip` can be unfinished. */
  ghost predicate Serial(requests: seq<Request>, ip: Address)
  {
    forall i, j :: 0 <= i < j < |requests| && requests[i].ip == ip && requests[j].ip == ip ==>
      Finished(requests[i].phase)
  }

  /** Commits of `ip` are a TTL apart and come from ever later lookups. */
  ghost predicate Spaced(cfg: Config, commits: seq<Commit>, ip: Address)
  {
    WritersInOrder(commits, ip) && Gapped(commits, ip, cfg.ttl)
  }

  ghost predicate WritersInOrder(commits: seq<Commit>, ip: Address)
  {
    forall j, k :: 0 <= j < k < |commits| && commits[j].record.ip == ip && commits[k].record.ip == ip ==>
      commits[j].writer < commits[k].writer
  }

  /** Each commit of `ip` was fetched at least `gap` after those before it. */
  ghost predicate Gapped(commits: seq<Commit>, ip: Address, gap: Time)
  {
    forall j, k :: 0 <= j < k < |commits| && commits[j].record.ip == ip && commits[k].record.ip == ip ==>
      commits[j].record.fetchedAt + gap <= commits[k].record.fetchedAt
  }

  /** The row may still commit. */
  predicate Writing(phase: Phase)
  {
    phase.Saving? || phase.Doubtful?
  }

  /** If it is unfinished, the lookup of `ip` still knows the last commit. */
  predicate Current(s: State, q: Request, ip: Address)
  {
    q.phase.Selected? || q.phase.Asking? || Writing(q.phase) ==>
      q.seen <= |s.commits| && RowOf(s.commits[..q.seen], ip) == RowOf(s.commits, ip)
  }

  ghost predicate AllCurrent(s: State, ip: Address)
  {
    forall i :: 0 <= i < |s.requests| && s.requests[i].ip == ip ==> Current(s, s.requests[i], ip)
  }

  /** Whoever committed a row for `ip` looked `ip` up and is past its upsert. */
  ghost predicate WritersPast(s: State, ip: Address)
  {
    forall c :: c in s.commits && c.record.ip == ip ==> WriterPast(s, c)
  }

  predicate WriterPast(s: State, c: Commit)
  {
    && c.writer < |s.requests| && s.requests[c.writer].ip == c.record.ip
    && (s.requests[c.writer].phase.Stored? || Finished(s.requests[c.writer].phase))
  }

  /** Whoever is about to commit a row for `ip` read the clock a second time no earlier than the first. */
  ghost predicate AllOnward(s: State, ip: Address)
  {
    forall i :: 0 <= i < |s.requests| && s.requests[i].ip == ip ==> ReadOnward(s.requests[i])
  }

  predicate ReadOnward(q: Request)
  {
    Writing(q.phase) ==> q.started <= q.phase.record.fetchedAt
  }

  /** What runs without overlap keep, whatever their clocks read. */
  ghost predicate Informed(s: State, ip: Address)
  {
    Serial(s.requests, ip) && AllCurrent(s, ip) && WritersPast(s, ip) && WritersInOrder(s.commits, ip)
  }

  ghost predicate Orderly(cfg: Config, s: State, ip: Address)
  {
    Informed(s, ip) && Spaced(cfg, s.commits, ip) && AllOnward(s, ip)
  }

  lemma SerialStays(cfg: Config, s: State, e: Event, ip: Address)
    requires Enabled(s, e) && StartsAlone(s, e, ip) && Serial(s.requests, ip)
    ensures Serial(Apply(cfg, s, e).requests, ip)
  {
    var t := Apply(cfg, s, e);
    OnlyGrows(cfg, s, e);
    forall i, j | 0 <= i < j < |t.requests| && t.requests[i].ip == ip && t.requests[j].ip == ip
      ensures Finished(t.requests[i].phase)
    {
      FinishedStays(cfg, s, e, i);
    }
  }

  lemma FinishedStays(cfg: Config, s: State, e: Event, i: nat)
    requires Enabled(s, e) && i < |s.requests| && Finished(s.requests[i].phase)
    ensures i < |Apply(cfg, s, e).requests| && Apply(cfg, s, e).requests[i] == s.requests[i]
  {
    OthersUnmoved(cfg, s, e, i);
  }

  lemma WritersStayPast(cfg: Config, s: State, e: Event, ip: Address)
    requires Enabled(s, e) && WritersPast(s, ip)
    requires Commits(e) ==> s.requests[e.i].phase.record.ip == s.requests[e.i].ip
    ensures WritersPast(Apply(cfg, s, e), ip)
  {
    var t := Apply(cfg, s, e);
    forall c | c in t.commits && c.record.ip == ip ensures WriterPast(t, c) {
      if c in s.commits {
        assert WriterPast(s, c);
        if e.Start? || e.i != c.writer {
          OthersUnmoved(cfg, s, e, c.writer);
        }
      }
    }
  }

  /** If they come in order, the last commit of `ip` is the latest. */
  lemma {:induction false} LastIsLatest(commits: seq<Commit>, ip: Address, gap: Time, j: nat)
    requires Gapped(commits, ip, gap) && gap >= 0
    requires j < |commits| && commits[j].record.ip == ip
    ensures LastCommit(commits, ip).Some?
            && commits[j].record.fetchedAt <= LastCommit(commits, ip).value.record.fetchedAt
    decreases |commits|
  {
    var n := |commits| - 1;
    if commits[n].record.ip != ip {
      LastIsLatest(commits[..n], ip, gap, j);
    }
  }

  lemma GappedAppend(commits: seq<Commit>, c: Commit, ip: Address, gap: Time)
    requires Gapped(commits, ip, gap) && gap >= 0
    requires c.record.ip == ip && LastCommit(commits, ip).Some? ==>
             LastCommit(commits, ip).value.record.fetchedAt + gap <= c.record.fetchedAt
    ensures Gapped(commits + [c], ip, gap)
  {
    forall j | 0 <= j < |commits| && commits[j].record.ip == ip && c.record.ip == ip
      ensures commits[j].record.fetchedAt + gap <= c.record.fetchedAt
    {
      LastIsLatest(commits, ip, gap, j);
    }
  }

  lemma GappedStays(cfg: Config, s: State, e: Event, ip: Address, gap: Time)
    requires Enabled(s, e) && Inv(cfg, s) && gap >= 0
    requires Gapped(s.commits, ip, gap) && Guards(s, e, ip, gap) && AllOnward(s, ip)
    ensures Gapped(Apply(cfg, s, e).commits, ip, gap)
  {
    if Commits(e) {
      var q := s.requests[e.i];
      assert Sound(cfg, s.commits, q) && Get(s.table, q.ip) == RowOf(s.commits, q.ip);
      FirstIffLast(s.commits, q.ip);
      if q.ip == ip {
        assert ReadOnward(q);
      }
      GappedAppend(s.commits, Commit(q.phase.record, q.phase.stamp, e.i), ip, gap);
    }
  }

  /** A lookup that is about to commit is later than every lookup of its address that has committed. */
  lemma WritersStayInOrder(cfg: Config, s: State, e: Event, ip: Address)
    requires Enabled(s, e) && Informed(s, ip)
    requires Commits(e) ==> s.requests[e.i].phase.record.ip == s.requests[e.i].ip
    ensures WritersInOrder(Apply(cfg, s, e).commits, ip)
  {
    if Commits(e) && s.requests[e.i].ip == ip {
      forall j: nat | j < |s.commits| && s.commits[j].record.ip == ip ensures s.commits[j].writer < e.i {
        assert WriterPast(s, s.commits[j]);
      }
    }
  }

  /** A commit for another address, or no commit, leaves what a lookup knows current. */
  lemma OtherStaysCurrent(cfg: Config, s: State, e: Event, ip: Address, i: nat)
    requires Enabled(s, e)
    requires i < |s.requests| && s.requests[i].ip == ip && Current(s, s.requests[i], ip) && (e.Start? || e.i != i)
    requires Commits(e) ==> s.requests[e.i].phase.record.ip == s.requests[e.i].ip
    requires Commits(e) && s.requests[e.i].ip == ip ==> Finished(s.requests[i].phase)
    ensures i < |Apply(cfg, s, e).requests| && Current(Apply(cfg, s, e), s.requests[i], ip)
  {
    var t, q := Apply(cfg, s, e), s.requests[i];
    OthersUnmoved(cfg, s, e, i);
    if Commits(e) && !Finished(q.phase) {
      var c := t.commits[|s.commits|];
      RowOfAppend(s.commits, c, ip);
      if q.seen <= |s.commits| {
        assert t.commits[..q.seen] == s.commits[..q.seen];
      }
    }
  }

  lemma MovedStaysCurrent(cfg: Config, s: State, e: Event, ip: Address)
    requires Enabled(s, e) && !e.Start?
    requires s.requests[e.i].ip == ip && Current(s, s.requests[e.i], ip)
    ensures Current(Apply(cfg, s, e), Apply(cfg, s, e).requests[e.i], ip)
  {
    if Commits(e) {
      CommittedStaysCurrent(cfg, s, e, ip);
    } else if e.Select? {
      assert s.commits[..|s.commits|] == s.commits;
    }
  }

  lemma CommittedStaysCurrent(cfg: Config, s: State, e: Event, ip: Address)
    requires Enabled(s, e) && Commits(e) && s.requests[e.i].ip == ip && Current(s, s.requests[e.i], ip)
    ensures Current(Apply(cfg, s, e), Apply(cfg, s, e).requests[e.i], ip)
  {
  }

  lemma CurrentStays(cfg: Config, s: State, e: Event, ip: Address)
    requires Enabled(s, e) && Serial(s.requests, ip) && AllCurrent(s, ip)
    requires Commits(e) ==> s.requests[e.i].phase.record.ip == s.requests[e.i].ip
    ensures AllCurrent(Apply(cfg, s, e), ip)
  {
    var t := Apply(cfg, s, e);
    OnlyGrows(cfg, s, e);
    forall i: nat | i < |t.requests| && t.requests[i].ip == ip ensures Current(t, t.requests[i], ip) {
      if i < |s.requests| {
        assert Current(s, s.requests[i], ip);
        if e.Start? || e.i != i {
          OthersUnmoved(cfg, s, e, i);
          OtherStaysCurrent(cfg, s, e, ip, i);
        } else {
          MovedStaysCurrent(cfg, s, e, ip);
        }
      }
    }
  }

  /** Lookups that do not overlap know the last commit until they commit, and commit in their order. */
  lemma {:induction false} SeparateRunsStayInformed(cfg: Config, es: seq<Event>, ip: Address)
    requires Legal(cfg, INITIAL, es) && Separate(cfg, es, ip)
    ensures Informed(Exec(cfg, INITIAL, es), ip)
    decreases |es|
  {
    if es != [] {
      var n := |es| - 1;
      var s, e := Exec(cfg, INITIAL, es[..n]), es[n];
      SeparateRunsStayInformed(cfg, es[..n], ip);
      RunsKeepInv(cfg, es[..n]);
      if Commits(e) {
        assert Sound(cfg, s.commits, s.requests[e.i]);
      }
      SerialStays(cfg, s, e, ip);
      CurrentStays(cfg, s, e, ip);
      WritersStayPast(cfg, s, e, ip);
      WritersStayInOrder(cfg, s, e, ip);
    }
  }

  lemma {:induction false} MonotoneRunsReadOnward(cfg: Config, es: seq<Event>, ip: Address)
    requires Legal(cfg, INITIAL, es) && Monotone(cfg, es, ip)
    ensures AllOnward(Exec(cfg, INITIAL, es), ip)
    decreases |es|
  {
    if es != [] {
      var n := |es| - 1;
      var s, e := Exec(cfg, INITIAL, es[..n]), es[n];
      var t := Apply(cfg, s, e);
      MonotoneRunsReadOnward(cfg, es[..n], ip);
      OnlyGrows(cfg, s, e);
      forall i: nat | i < |t.requests| && t.requests[i].ip == ip ensures ReadOnward(t.requests[i]) {
        if i < |s.requests| {
          assert ReadOnward(s.requests[i]);
          OnwardStays(cfg, s, e, ip, i);
        }
      }
    }
  }

  lemma OnwardStays(cfg: Config, s: State, e: Event, ip: Address, i: nat)
    requires Enabled(s, e) && ReadsOnward(s, e, ip)
    requires i < |s.requests| && s.requests[i].ip == ip && ReadOnward(s.requests[i])
    ensures i < |Apply(cfg, s, e).requests| && ReadOnward(Apply(cfg, s, e).requests[i])
  {
    if e.Start? || e.i != i {
      OthersUnmoved(cfg, s, e, i);
    }
  }

  /** Guarded commits are apart, if the clock does not fall back within a lookup. */
  lemma {:induction false} GuardedRunsStayGapped(cfg: Config, es: seq<Event>, ip: Address, gap: Time)
    requires Legal(cfg, INITIAL, es) && Monotone(cfg, es, ip) && Guarded(cfg, es, ip, gap) && gap >= 0
    ensures Gapped(Exec(cfg, INITIAL, es).commits, ip, gap)
    decreases |es|
  {
    if es != [] {
      var n := |es| - 1;
      GuardedRunsStayGapped(cfg, es[..n], ip, gap);
      MonotoneRunsReadOnward(cfg, es[..n], ip);
      RunsKeepInv(cfg, es[..n]);
      GappedStays(cfg, Exec(cfg, INITIAL, es[..n]), es[n], ip, gap);
    }
  }

  /** A row replaced by a lookup that runs alone is a TTL older than the start of the lookup. */
  lemma {:induction false} SeparateIsGuarded(cfg: Config, es: seq<Event>, ip: Address, gap: Time)
    requires Legal(cfg, INITIAL, es) && Separate(cfg, es, ip) && gap <= cfg.ttl
    ensures Guarded(cfg, es, ip, gap)
    decreases |es|
  {
    if es != [] {
      var n := |es| - 1;
      var s, e := Exec(cfg, INITIAL, es[..n]), es[n];
      SeparateIsGuarded(cfg, es[..n], ip, gap);
      SeparateRunsStayInformed(cfg, es[..n], ip);
      RunsKeepInv(cfg, es[..n]);
      if Commits(e) && s.requests[e.i].ip == ip {
        assert Sound(cfg, s.commits, s.requests[e.i]) && Current(s, s.requests[e.i], ip);
        RowIsTimed(cfg, s, ip);
      }
    }
  }

  /** Every row expires a TTL after it was fetched. */
  lemma RowIsTimed(cfg: Config, s: State, ip: Address)
    requires Inv(cfg, s)
    ensures Get(s.table, ip) == RowOf(s.commits, ip)
    ensures ip in s.table ==> s.table[ip].record.expiresAt == s.table[ip].record.fetchedAt + cfg.ttl
  {
    assert Get(s.table, ip) == RowOf(s.commits, ip);
    if ip in s.table {
      FirstIffLast(s.commits, ip);
      LastCommitIn(s.commits, ip);
    }
  }

  /** Without overlap, and with a clock that does not fall back within a lookup, refreshes are a TTL apart. */
  lemma CalmRunsStayOrderly(cfg: Config, es: seq<Event>, ip: Address)
    requires Legal(cfg, INITIAL, es) && Calm(cfg, es, ip) && cfg.ttl >= 0
    ensures Orderly(cfg, Exec(cfg, INITIAL, es), ip)
  {
    SeparateRunsStayInformed(cfg, es, ip);
    MonotoneRunsReadOnward(cfg, es, ip);
    SeparateIsGuarded(cfg, es, ip, cfg.ttl);
    GuardedRunsStayGapped(cfg, es, ip, cfg.ttl);
  }

  /**
    Lookup `i` of `ip` was answered by the provider and its row committed, whether or not the caller
    was told so: it may have been served, or its upsert reported as failed.
   */
  ghost predicate Refreshed(s: State, ip: Address, i: nat, at: Time)
  {
    exists c :: c in s.commits && c.writer == i && c.record.ip == ip && c.record.fetchedAt == at
  }

  /** Every provider-sourced success has refreshed its address. */
  lemma SuccessRefreshes(cfg: Config, es: seq<Event>, i: nat)
    requires Legal(cfg, INITIAL, es) && i < |Exec(cfg, INITIAL, es).requests|
    requires var phase := Exec(cfg, INITIAL, es).requests[i].phase; phase.Served? && phase.result.source.Provider?
    ensures var s := Exec(cfg, INITIAL, es); Refreshed(s, s.requests[i].ip, i, s.requests[i].phase.result.fetchedAt)
  {
    var s := Exec(cfg, INITIAL, es);
    MissesAreFetched(cfg, es, i);
    var record :| Committed(s.commits, i, record) && s.requests[i].phase.result == AsResult(record, Provider);
    var c :| c in s.commits && Wrote(c, i, record);
  }

  lemma SpacedInOrder(cfg: Config, commits: seq<Commit>, ip: Address, k: nat, m: nat)
    requires Spaced(cfg, commits, ip) && k < |commits| && m < |commits|
    requires commits[k].record.ip == ip && commits[m].record.ip == ip && commits[k].writer < commits[m].writer
    ensures k < m && commits[k].record.fetchedAt + cfg.ttl <= commits[m].record.fetchedAt
  {
  }

  /** Any two refreshes of one address by different lookups are at least a TTL apart, the later lookup's later. */
  lemma RefreshesApart(cfg: Config, es: seq<Event>, ip: Address, i: nat, j: nat, at: Time, at': Time)
    requires Legal(cfg, INITIAL, es) && Calm(cfg, es, ip) && cfg.ttl >= 0
    requires Refreshed(Exec(cfg, INITIAL, es), ip, i, at) && Refreshed(Exec(cfg, INITIAL, es), ip, j, at') && i < j
    ensures at + cfg.ttl <= at'
  {
    CalmRunsStayOrderly(cfg, es, ip);
    var commits := Exec(cfg, INITIAL, es).commits;
    var c :| c in commits && c.writer == i && c.record.ip == ip && c.record.fetchedAt == at;
    var d :| d in commits && d.writer == j && d.record.ip == ip && d.record.fetchedAt == at';
    var k :| 0 <= k < |commits| && commits[k] == c;
    var m :| 0 <= m < |commits| && commits[m] == d;
    SpacedInOrder(cfg, commits, ip, k, m);
  }

  /** The lookups of the list refreshed `ip`, in order, at the times of the other list. */
  ghost predicate RefreshesOf(s: State, ip: Address, who: seq<nat>, at: seq<Time>)
  {
    && |who| == |at|
    && (forall k :: 0 <= k < |who| ==> Refreshed(s, ip, who[k], at[k]))
    && (forall k :: 0 < k < |who| ==> who[k - 1] < who[k])
  }

  lemma {:induction false} SpanOfSteps(at: seq<Time>, ttl: Time)
    requires at != [] && forall k :: 0 < k < |at| ==> at[k - 1] + ttl <= at[k]
    ensures (|at| - 1) * ttl <= at[|at| - 1] - at[0]
    decreases |at|
  {
    var n := |at| - 1;
    if n > 0 {
      SpanOfSteps(at[..n], ttl);
      assert at[n - 1] + ttl <= at[n];
      assert n * ttl == (n - 1) * ttl + ttl;
    }
  }

  /**
    So n refreshes of one address take at least n - 1 TTLs, whatever lookups lie between, and whether or
    not their upserts were reported as failed.
   */
  lemma RefreshesSpan(cfg: Config, es: seq<Event>, ip: Address, who: seq<nat>, at: seq<Time>)
    requires Legal(cfg, INITIAL, es) && Calm(cfg, es, ip) && cfg.ttl >= 0
    requires who != [] && RefreshesOf(Exec(cfg, INITIAL, es), ip, who, at)
    ensures (|who| - 1) * cfg.ttl <= at[|at| - 1] - at[0]
  {
    forall k | 0 < k < |at| ensures at[k - 1] + cfg.ttl <= at[k] {
      RefreshesApart(cfg, es, ip, who[k - 1], who[k], at[k - 1], at[k]);
    }
    SpanOfSteps(at, cfg.ttl);
  }

  predicate FromProviderFor(q: Request, ip: Address)
  {
    q.ip == ip && q.phase.Served? && q.phase.result.source.Provider?
  }

  /** The provider-sourced successes of one address are pairwise at least a TTL apart. */
  lemma SuccessesApart(cfg: Config, es: seq<Event>, ip: Address, i: nat, j: nat)
    requires Legal(cfg, INITIAL, es) && Calm(cfg, es, ip) && cfg.ttl >= 0
    requires i < j < |Exec(cfg, INITIAL, es).requests|
    requires FromProviderFor(Exec(cfg, INITIAL, es).requests[i], ip)
    requires FromProviderFor(Exec(cfg, INITIAL, es).requests[j], ip)
    ensures var requests := Exec(cfg, INITIAL, es).requests;
            requests[i].phase.result.fetchedAt + cfg.ttl <= requests[j].phase.result.fetchedAt
  {
    SuccessRefreshes(cfg, es, i);
    SuccessRefreshes(cfg, es, j);
    var requests := Exec(cfg, INITIAL, es).requests;
    RefreshesApart(cfg, es, ip, i, j, requests[i].phase.result.fetchedAt, requests[j].phase.result.fetchedAt);
  }
}
