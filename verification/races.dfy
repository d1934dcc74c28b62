/** What goes wrong when lookups of one address overlap or a clock falls back, and what does not otherwise. */
module Races {
  import opened Domain
  import opened Upstream
  import opened Protocol
  import opened Runs
  import opened Spacing
  import opened Guards
  import opened Simulation

  /** One more event, and what it means for the two conditions. */
  lemma Extended(cfg: Config, es: seq<Event>, e: Event, ip: Address)
    requires Legal(cfg, INITIAL, es) && Enabled(Exec(cfg, INITIAL, es), e)
    ensures var s := Exec(cfg, INITIAL, es);
            && Legal(cfg, INITIAL, es + [e]) && Exec(cfg, INITIAL, es + [e]) == Apply(cfg, s, e)
            && (Separate(cfg, es + [e], ip) <==> Separate(cfg, es, ip) && StartsAlone(s, e, ip))
            && (Monotone(cfg, es + [e], ip) <==> Monotone(cfg, es, ip) && ReadsOnward(s, e, ip))
  {
    Then(cfg, es, e);
    assert (es + [e])[..|es|] == es;
  }

  /** Lookup `i` starts and reads no fresh row. */
  function Missed(past: seq<Event>, i: nat, ip: Address, now: Time): seq<Event>
  {
    past + [Start(0, ip, now)] + [Select(i)] + [ReadReturns(i)]
  }

  /** A lookup starts, reads no fresh row, and is about to ask the provider. */
  lemma Begin(cfg: Config, past: seq<Event>, ip: Address, now: Time) returns (run: seq<Event>)
    requires Legal(cfg, INITIAL, past) && !Fresh(Get(Exec(cfg, INITIAL, past).table, ip), now)
    ensures past <= run && Legal(cfg, INITIAL, run)
    ensures run == Missed(past, |Exec(cfg, INITIAL, past).requests|, ip, now)
    ensures var s, t := Exec(cfg, INITIAL, past), Exec(cfg, INITIAL, run);
            && Opened(s, t, 0, ip, now, Asking(0))
            && t.commits == s.commits
            && (Separate(cfg, run, ip) <==> Separate(cfg, past, ip) && Idle(s.requests, ip))
            && (Monotone(cfg, run, ip) <==> Monotone(cfg, past, ip))
  {
    var s := Exec(cfg, INITIAL, past);
    var selected := Started(cfg, past, ip, now);
    Extended(cfg, selected, ReadReturns(|s.requests|), ip);
    run := selected + [ReadReturns(|s.requests|)];
  }

  lemma Started(cfg: Config, past: seq<Event>, ip: Address, now: Time) returns (run: seq<Event>)
    requires Legal(cfg, INITIAL, past)
    ensures past <= run && Legal(cfg, INITIAL, run)
    ensures run == past + [Start(0, ip, now)] + [Select(|Exec(cfg, INITIAL, past).requests|)]
    ensures var s, t := Exec(cfg, INITIAL, past), Exec(cfg, INITIAL, run);
            && Opened(s, t, 0, ip, now, Selected(Get(s.table, ip)))
            && t.commits == s.commits
            && (Separate(cfg, run, ip) <==> Separate(cfg, past, ip) && Idle(s.requests, ip))
            && (Monotone(cfg, run, ip) <==> Monotone(cfg, past, ip))
  {
    var s := Exec(cfg, INITIAL, past);
    var i := |s.requests|;
    Extended(cfg, past, Start(0, ip, now), ip);
    var begun := past + [Start(0, ip, now)];
    Extended(cfg, begun, Select(i), ip);
    run := begun + [Select(i)];
    StartedState(cfg, s, ip, now);
  }

  lemma StartedState(cfg: Config, s: State, ip: Address, now: Time)
    ensures var t := Apply(cfg, Apply(cfg, s, Start(0, ip, now)), Select(|s.requests|));
            Opened(s, t, 0, ip, now, Selected(Get(s.table, ip))) && t.commits == s.commits
  {
    var t := Apply(cfg, Apply(cfg, s, Start(0, ip, now)), Select(|s.requests|));
    assert t.requests == s.requests + [Request(0, ip, now, |s.commits|, Selected(Get(s.table, ip)))];
  }

  /** The record that a reply makes. */
  function RecordOf(cfg: Config, ip: Address, attempt: Attempt, at: Time): CacheRecord
    requires Judge(attempt).Usable?
  {
    CacheRecord(ip, Judge(attempt).answer, at, at + cfg.ttl)
  }

  /** The provider answers and the clock reads `at`. */
  lemma Answered(cfg: Config, past: seq<Event>, i: nat, attempt: Attempt, at: Time) returns (run: seq<Event>)
    requires Legal(cfg, INITIAL, past) && Judge(attempt).Usable?
    requires i < |Exec(cfg, INITIAL, past).requests| && Exec(cfg, INITIAL, past).requests[i].phase == Asking(0)
    ensures var s, ip := Exec(cfg, INITIAL, past), Exec(cfg, INITIAL, past).requests[i].ip;
            && run == past + [AttemptReturns(i, attempt, at, at)]
            && Continues(cfg, past, run, i, Saving(RecordOf(cfg, ip, attempt, at), at))
            && var t := Exec(cfg, INITIAL, run);
               && t.table == s.table && t.commits == s.commits
               && (Separate(cfg, run, ip) <==> Separate(cfg, past, ip))
               && (Monotone(cfg, run, ip) <==> Monotone(cfg, past, ip) && s.requests[i].started <= at)
  {
    var e := AttemptReturns(i, attempt, at, at);
    Extended(cfg, past, e, Exec(cfg, INITIAL, past).requests[i].ip);
    run := past + [e];
  }

  /** The row is committed and the commit acknowledged. */
  lemma Saved(cfg: Config, past: seq<Event>, i: nat) returns (run: seq<Event>)
    requires Legal(cfg, INITIAL, past)
    requires i < |Exec(cfg, INITIAL, past).requests| && Exec(cfg, INITIAL, past).requests[i].phase.Saving?
    ensures var s := Exec(cfg, INITIAL, past);
            var q := s.requests[i];
            && Continues(cfg, past, run, i, Served(AsResult(q.phase.record, Provider)))
            && var t := Exec(cfg, INITIAL, run);
               && t.commits == s.commits + [Commit(q.phase.record, q.phase.stamp, i)]
               && q.ip in t.table && t.table[q.ip].record == q.phase.record
               && (Separate(cfg, run, q.ip) <==> Separate(cfg, past, q.ip))
               && (Monotone(cfg, run, q.ip) <==> Monotone(cfg, past, q.ip))
  {
    var ip := Exec(cfg, INITIAL, past).requests[i].ip;
    Extended(cfg, past, CommitRow(i), ip);
    var committed := past + [CommitRow(i)];
    Extended(cfg, committed, Acknowledge(i), ip);
    run := committed + [Acknowledge(i)];
  }

  /** Two lookups of `ip` that both missed before either was answered. */
  lemma BothMiss(cfg: Config, ip: Address, now: Time) returns (run: seq<Event>)
    ensures Legal(cfg, INITIAL, run)
    ensures var t := Exec(cfg, INITIAL, run);
            && |t.requests| == 2 && t.requests[0].ip == t.requests[1].ip == ip
            && t.requests[0].phase == t.requests[1].phase == Asking(0)
            && t.requests[0].started == t.requests[1].started == now && t.commits == []
            && !Separate(cfg, run, ip) && Monotone(cfg, run, ip)
  {
    var first := Begin(cfg, [], ip, now);
    assert Exec(cfg, INITIAL, first).requests[0].ip == ip;
    run := Begin(cfg, first, ip, now);
  }

  /**
    Lookups that overlap defeat the spacing though their clocks agree and never fall back: both miss, both ask the
    provider, and both are served what it answers, at one and the same time.
   */
  lemma OverlapRefetches(cfg: Config, ip: Address, attempt: Attempt, now: Time, at: Time) returns (run: seq<Event>)
    requires Judge(attempt).Usable? && now <= at
    ensures Legal(cfg, INITIAL, run) && Monotone(cfg, run, ip) && !Separate(cfg, run, ip)
    ensures var requests := Exec(cfg, INITIAL, run).requests;
            && |requests| == 2 && FromProviderFor(requests[0], ip) && FromProviderFor(requests[1], ip)
            && requests[0].phase.result.fetchedAt == requests[1].phase.result.fetchedAt == at
  {
    run := BothMiss(cfg, ip, now);
    run := Answered(cfg, run, 0, attempt, at);
    run := Answered(cfg, run, 1, attempt, at);
    run := Saved(cfg, run, 0);
    run := Saved(cfg, run, 1);
  }

  /**
    So does a clock that falls back within a lookup, by however little and though no lookups overlap: the first
    lookup's row expires at the reading that the second starts with, and the second is answered earlier.
   */
  lemma FallbackRefetches(cfg: Config, ip: Address, attempt: Attempt, started: Time, at: Time)
    returns (run: seq<Event>)
    requires Judge(attempt).Usable? && at < started
    ensures Legal(cfg, INITIAL, run) && Separate(cfg, run, ip) && !Monotone(cfg, run, ip)
    ensures var requests := Exec(cfg, INITIAL, run).requests;
            && |requests| == 2 && FromProviderFor(requests[0], ip) && FromProviderFor(requests[1], ip)
            && requests[1].started == started && requests[1].phase.result.fetchedAt == at
            && requests[1].phase.result.fetchedAt < requests[0].phase.result.fetchedAt + cfg.ttl
  {
    run := Begin(cfg, [], ip, started - cfg.ttl);
    run := Answered(cfg, run, 0, attempt, started - cfg.ttl);
    run := Saved(cfg, run, 0);
    run := Begin(cfg, run, ip, started);
    run := Answered(cfg, run, 1, attempt, at);
    run := Saved(cfg, run, 1);
  }

  /** A lookup that runs alone after `past`: it starts at `started`, misses, and is answered at `at`. */
  function Refresh(past: seq<Event>, i: nat, ip: Address, started: Time, attempt: Attempt, at: Time): seq<Event>
  {
    Missed(past, i, ip, started) + [AttemptReturns(i, attempt, at, at)] + [CommitRow(i)]
  }

  /** If the lookup misses, it can run so after `past`, and stores a record fetched a TTL after the last or later. */
  ghost predicate RefreshesLater(cfg: Config, past: seq<Event>, ip: Address, started: Time, attempt: Attempt, at: Time)
    requires Legal(cfg, INITIAL, past) && ip in Exec(cfg, INITIAL, past).table
  {
    var s := Exec(cfg, INITIAL, past);
    var run := Refresh(past, |s.requests|, ip, started, attempt, at);
    !Fresh(Get(s.table, ip), started) ==>
      && Legal(cfg, INITIAL, run) && ip in Exec(cfg, INITIAL, run).table
      && s.table[ip].record.fetchedAt + cfg.ttl <= Exec(cfg, INITIAL, run).table[ip].record.fetchedAt
  }

  lemma RefreshRuns(cfg: Config, past: seq<Event>, ip: Address, started: Time, attempt: Attempt, at: Time)
    requires Legal(cfg, INITIAL, past) && Judge(attempt).Usable?
    requires !Fresh(Get(Exec(cfg, INITIAL, past).table, ip), started)
    ensures var run := Refresh(past, |Exec(cfg, INITIAL, past).requests|, ip, started, attempt, at);
            && Legal(cfg, INITIAL, run) && ip in Exec(cfg, INITIAL, run).table
            && Exec(cfg, INITIAL, run).table[ip].record.fetchedAt == at
  {
    var i := |Exec(cfg, INITIAL, past).requests|;
    var missed := Begin(cfg, past, ip, started);
    assert Exec(cfg, INITIAL, missed).requests[i].ip == ip;
    var answered := Answered(cfg, missed, i, attempt, at);
    Extend(cfg, answered, CommitRow(i));
  }

  lemma StaleIsReplaced(cfg: Config, past: seq<Event>, ip: Address, started: Time, attempt: Attempt, at: Time)
    requires Legal(cfg, INITIAL, past) && ip in Exec(cfg, INITIAL, past).table
    requires Judge(attempt).Usable? && started <= at
    ensures RefreshesLater(cfg, past, ip, started, attempt, at)
  {
    if !Fresh(Get(Exec(cfg, INITIAL, past).table, ip), started) {
      RefreshRuns(cfg, past, ip, started, attempt, at);
      RunsKeepInv(cfg, past);
      RowIsTimed(cfg, Exec(cfg, INITIAL, past), ip);
    }
  }

  /**
    A lookup that runs alone refreshes its address a TTL after the last refresh, whatever has happened before,
    exactly if the clock does not fall back between its two readings.
   */
  lemma RefreshesLaterIff(cfg: Config, ip: Address, started: Time, attempt: Attempt, at: Time)
    requires Judge(attempt).Usable?
    ensures (forall past ::
               Legal(cfg, INITIAL, past) && ip in Exec(cfg, INITIAL, past).table ==>
                 RefreshesLater(cfg, past, ip, started, attempt, at))
            <==> started <= at
  {
    if started <= at {
      forall past | Legal(cfg, INITIAL, past) && ip in Exec(cfg, INITIAL, past).table
        ensures RefreshesLater(cfg, past, ip, started, attempt, at)
      {
        StaleIsReplaced(cfg, past, ip, started, attempt, at);
      }
    } else {
      var past := OneRefresh(cfg, ip, attempt, started - cfg.ttl);
      RefreshRuns(cfg, past, ip, started, attempt, at);
      assert !RefreshesLater(cfg, past, ip, started, attempt, at);
    }
  }

  /** A first lookup, whose row expires a TTL after `at`. */
  lemma OneRefresh(cfg: Config, ip: Address, attempt: Attempt, at: Time) returns (run: seq<Event>)
    requires Judge(attempt).Usable?
    ensures Legal(cfg, INITIAL, run) && ip in Exec(cfg, INITIAL, run).table
    ensures var record := Exec(cfg, INITIAL, run).table[ip].record;
            record.fetchedAt == at && record.expiresAt == at + cfg.ttl
  {
    run := Begin(cfg, [], ip, at);
    run := Answered(cfg, run, 0, attempt, at);
    run := Saved(cfg, run, 0);
  }

  /**
    Under overlap a row can go back: the lookup that was answered first commits last, and replaces the later
    answer by its own.
   */
  lemma RowGoesBack(cfg: Config, ip: Address, attempt: Attempt, now: Time, early: Time, late: Time)
    returns (before: seq<Event>, run: seq<Event>)
    requires Judge(attempt).Usable? && now <= early < late
    ensures before <= run && Legal(cfg, INITIAL, before) && Legal(cfg, INITIAL, run) && Monotone(cfg, run, ip)
    ensures var s, t := Exec(cfg, INITIAL, before), Exec(cfg, INITIAL, run);
            && ip in s.table && s.table[ip].record.fetchedAt == late
            && ip in t.table && t.table[ip].record.fetchedAt == early
  {
    run := BothMiss(cfg, ip, now);
    run := Answered(cfg, run, 0, attempt, early);
    run := Answered(cfg, run, 1, attempt, late);
    before := Saved(cfg, run, 1);
    run := Saved(cfg, before, 0);
  }

  // ---- Rows do not go back otherwise ----

  lemma {:induction false} CommitsGrow(cfg: Config, es: seq<Event>, n: nat)
    requires Legal(cfg, INITIAL, es) && n <= |es|
    ensures Legal(cfg, INITIAL, es[..n]) && Exec(cfg, INITIAL, es[..n]).commits <= Exec(cfg, INITIAL, es).commits
    decreases |es|
  {
    if n == |es| {
      assert es[..n] == es;
    } else {
      var m := |es| - 1;
      CommitsGrow(cfg, es[..m], n);
      assert es[..m][..n] == es[..n];
      OnlyGrows(cfg, Exec(cfg, INITIAL, es[..m]), es[m]);
    }
  }

  /**
    While no commit replaces a row that was fetched after the committing lookup started, and the clock does not
    fall back within a lookup, the row of an address never goes back.
   */
  lemma RowsNeverGoBack(cfg: Config, es: seq<Event>, n: nat, ip: Address)
    requires Legal(cfg, INITIAL, es) && Monotone(cfg, es, ip) && Guarded(cfg, es, ip, 0) && n <= |es|
    requires Legal(cfg, INITIAL, es[..n]) && ip in Exec(cfg, INITIAL, es[..n]).table
    ensures var s, t := Exec(cfg, INITIAL, es[..n]), Exec(cfg, INITIAL, es);
            ip in t.table && s.table[ip].record.fetchedAt <= t.table[ip].record.fetchedAt
  {
    var s, t := Exec(cfg, INITIAL, es[..n]), Exec(cfg, INITIAL, es);
    CommitsGrow(cfg, es, n);
    GuardedRunsStayGapped(cfg, es, ip, 0);
    TableRow(cfg, es[..n], ip);
    TableRow(cfg, es, ip);
    var j := LastCommitAt(s.commits, ip);
    assert t.commits[j] == s.commits[j];
    LastIsLatest(t.commits, ip, 0, j);
    FirstIffLast(t.commits, ip);
  }

  /** In particular while its lookups do not overlap. */
  lemma SeparateRowsNeverGoBack(cfg: Config, es: seq<Event>, n: nat, ip: Address)
    requires Legal(cfg, INITIAL, es) && Calm(cfg, es, ip) && cfg.ttl >= 0 && n <= |es|
    requires Legal(cfg, INITIAL, es[..n]) && ip in Exec(cfg, INITIAL, es[..n]).table
    ensures var s, t := Exec(cfg, INITIAL, es[..n]), Exec(cfg, INITIAL, es);
            ip in t.table && s.table[ip].record.fetchedAt <= t.table[ip].record.fetchedAt
  {
    SeparateIsGuarded(cfg, es, ip, 0);
    RowsNeverGoBack(cfg, es, n, ip);
  }
}
