/**
  Exactly which commits keep refreshes apart, for whatever the clock reads when the provider answers. A run
  is compared with those in which one answer is timed differently and everything else is the same.
 */
module Guards {
  import opened Wrappers
  import opened Domain
  import opened Upstream
  import opened Protocol
  import opened Runs
  import opened Spacing

  // ---- One answer timed differently ----

  function Retime(e: Event, i: nat, f: Time): Event
  {
    if e.AttemptReturns? && e.i == i && Judge(e.attempt).Usable? then e.(fetchedAt := f) else e
  }

  /** The same events, but the clock reads `f` when lookup `i` is answered. */
  function Retimed(es: seq<Event>, i: nat, f: Time): seq<Event>
  {
    if es == [] then [] else Retimed(es[..|es| - 1], i, f) + [Retime(es[|es| - 1], i, f)]
  }

  /** A lookup that is about to commit, as if it had been answered at `f`. */
  function Timed(cfg: Config, phase: Phase, f: Time): Phase
    requires Writing(phase)
  {
    var record := phase.record.(fetchedAt := f, expiresAt := f + cfg.ttl);
    if phase.Saving? then Saving(record, phase.stamp) else Doubtful(record, phase.stamp)
  }

  predicate WritingIn(s: State, i: nat)
  {
    i < |s.requests| && Writing(s.requests[i].phase)
  }

  function WithPhase(s: State, i: nat, phase: Phase): State
    requires i < |s.requests|
  {
    s.(requests := s.requests[i := s.requests[i].(phase := phase)])
  }

  function WithReading(cfg: Config, s: State, i: nat, f: Time): State
  {
    if WritingIn(s, i) then WithPhase(s, i, Timed(cfg, s.requests[i].phase, f)) else s
  }

  /** Lookup `i` has not been answered, or not committed. */
  predicate Pending(s: State, i: nat)
  {
    i < |s.requests| ==>
      var phase := s.requests[i].phase;
      phase.Reading? || phase.Selected? || phase.Asking? || Writing(phase)
  }

  lemma PendingBefore(cfg: Config, s: State, e: Event, i: nat)
    requires Enabled(s, e) && Pending(Apply(cfg, s, e), i)
    ensures Pending(s, i)
  {
    if i < |s.requests| && (e.Start? || e.i != i) {
      OthersUnmoved(cfg, s, e, i);
    }
  }

  lemma MoveUnaware(cfg: Config, s: State, j: nat, phase: Phase, samples: Counters, i: nat, p: Phase)
    requires i < |s.requests| && j < |s.requests| && i != j
    ensures Move(cfg, WithPhase(s, i, p), j, phase, samples) == WithPhase(Move(cfg, s, j, phase, samples), i, p)
  {
    assert Move(cfg, WithPhase(s, i, p), j, phase, samples).requests
        == WithPhase(Move(cfg, s, j, phase, samples), i, p).requests;
  }

  /** An event of another lookup does not notice. */
  lemma OtherUnaware(cfg: Config, s: State, e: Event, i: nat, p: Phase)
    requires Enabled(s, e) && i < |s.requests| && (e.Start? || e.i != i)
    ensures Enabled(WithPhase(s, i, p), e) && i < |Apply(cfg, s, e).requests|
    ensures Apply(cfg, WithPhase(s, i, p), e) == WithPhase(Apply(cfg, s, e), i, p)
  {
    match e
    case Start(_, _, _) => StartUnaware(cfg, s, e, i, p);
    case Select(_) => SelectUnaware(cfg, s, e, i, p);
    case ReadReturns(_) => ReadUnaware(cfg, s, e, i, p);
    case AttemptReturns(_, _, _, _) => AnswerUnaware(cfg, s, e, i, p);
    case CommitRow(_) => CommitUnaware(cfg, s, e, i, p);
    case CommitLate(_) => CommitUnaware(cfg, s, e, i, p);
    case _ => EndUnaware(cfg, s, e, i, p);
  }

  lemma StartUnaware(cfg: Config, s: State, e: Event, i: nat, p: Phase)
    requires e.Start? && i < |s.requests|
    ensures Apply(cfg, WithPhase(s, i, p), e) == WithPhase(Apply(cfg, s, e), i, p)
  {
    assert Apply(cfg, WithPhase(s, i, p), e).requests == WithPhase(Apply(cfg, s, e), i, p).requests;
  }

  lemma SelectUnaware(cfg: Config, s: State, e: Event, i: nat, p: Phase)
    requires e.Select? && Enabled(s, e) && i < |s.requests| && e.i != i
    ensures Apply(cfg, WithPhase(s, i, p), e) == WithPhase(Apply(cfg, s, e), i, p)
  {
    assert Apply(cfg, WithPhase(s, i, p), e).requests == WithPhase(Apply(cfg, s, e), i, p).requests;
  }

  lemma ReadUnaware(cfg: Config, s: State, e: Event, i: nat, p: Phase)
    requires e.ReadReturns? && Enabled(s, e) && i < |s.requests| && e.i != i
    ensures Apply(cfg, WithPhase(s, i, p), e) == WithPhase(Apply(cfg, s, e), i, p)
  {
    var q := s.requests[e.i];
    if Fresh(q.phase.row, q.started) {
      MoveUnaware(cfg, s, e.i, Served(Hit(q.ip, q.phase.row.value)),
                  multiset{DatabaseOperations(Read), Lookups(Database, true)}, i, p);
    } else {
      MoveUnaware(cfg, s, e.i, Asking(0), multiset{DatabaseOperations(Read)}, i, p);
    }
  }

  lemma AnswerUnaware(cfg: Config, s: State, e: Event, i: nat, p: Phase)
    requires e.AttemptReturns? && Enabled(s, e) && i < |s.requests| && e.i != i
    ensures Apply(cfg, WithPhase(s, i, p), e) == WithPhase(Apply(cfg, s, e), i, p)
  {
    var q, v := s.requests[e.i], Judge(e.attempt);
    if !Final(v, q.phase.made + 1, cfg.maxRetries) {
      MoveUnaware(cfg, s, e.i, Asking(q.phase.made + 1), multiset{}, i, p);
    } else if v.Usable? {
      var record := CacheRecord(q.ip, v.answer, e.fetchedAt, e.fetchedAt + cfg.ttl);
      MoveUnaware(cfg, s, e.i, Saving(record, e.stamp), ConclusionSamples(v), i, p);
    } else {
      MoveUnaware(cfg, s, e.i, Failed(AtProvider(v.kind)),
                  ConclusionSamples(v) + multiset{Lookups(Provider, false)}, i, p);
    }
  }

  lemma CommitUnaware(cfg: Config, s: State, e: Event, i: nat, p: Phase)
    requires Commits(e) && Enabled(s, e) && i < |s.requests| && e.i != i
    ensures Apply(cfg, WithPhase(s, i, p), e) == WithPhase(Apply(cfg, s, e), i, p)
  {
    var next := if e.CommitRow? then Stored(s.requests[e.i].phase.record) else Failed(AtUpsert);
    MoveUnaware(cfg, s, e.i, next, multiset{}, i, p);
  }

  lemma EndUnaware(cfg: Config, s: State, e: Event, i: nat, p: Phase)
    requires e.ReadFails? || e.Acknowledge? || e.UpsertFails? || e.Abort?
    requires Enabled(s, e) && i < |s.requests| && e.i != i
    ensures Apply(cfg, WithPhase(s, i, p), e) == WithPhase(Apply(cfg, s, e), i, p)
  {
    var phase := s.requests[e.i].phase;
    match e
    case ReadFails(j) =>
      MoveUnaware(cfg, s, j, Failed(AtRead), multiset{DatabaseErrors(Read), DatabaseOperations(Read)}, i, p);
    case Acknowledge(j) =>
      MoveUnaware(cfg, s, j, Served(AsResult(phase.record, Provider)),
                  multiset{DatabaseOperations(Upsert), Lookups(Provider, true)}, i, p);
    case UpsertFails(j) =>
      MoveUnaware(cfg, s, j, if phase.Saving? then Doubtful(phase.record, phase.stamp) else Failed(AtUpsert),
                  multiset{DatabaseErrors(Upsert), DatabaseOperations(Upsert), Lookups(Provider, false)}, i, p);
    case Abort(j) =>
      MoveUnaware(cfg, s, j, Failed(AtUpsert), multiset{}, i, p);
  }

  /** An event of the lookup itself that leaves it pending is the same event, timed differently. */
  lemma OwnRetimed(cfg: Config, s: State, e: Event, f: Time)
    requires Enabled(s, e) && !e.Start? && Pending(Apply(cfg, s, e), e.i)
    ensures Enabled(WithReading(cfg, s, e.i, f), Retime(e, e.i, f))
    ensures Apply(cfg, WithReading(cfg, s, e.i, f), Retime(e, e.i, f)) == WithReading(cfg, Apply(cfg, s, e), e.i, f)
  {
    if e.UpsertFails? {
      DoubtRetimed(cfg, s, e, f);
    } else if e.AttemptReturns? {
      AnswerRetimed(cfg, s, e, f);
    }
  }

  lemma DoubtRetimed(cfg: Config, s: State, e: Event, f: Time)
    requires Enabled(s, e) && e.UpsertFails? && s.requests[e.i].phase.Saving?
    ensures Apply(cfg, WithReading(cfg, s, e.i, f), e) == WithReading(cfg, Apply(cfg, s, e), e.i, f)
  {
    assert Apply(cfg, WithReading(cfg, s, e.i, f), e).requests
        == WithReading(cfg, Apply(cfg, s, e), e.i, f).requests;
  }

  lemma AnswerRetimed(cfg: Config, s: State, e: Event, f: Time)
    requires Enabled(s, e) && e.AttemptReturns?
    ensures Apply(cfg, s, Retime(e, e.i, f)) == WithReading(cfg, Apply(cfg, s, e), e.i, f)
  {
    assert Apply(cfg, s, Retime(e, e.i, f)).requests == WithReading(cfg, Apply(cfg, s, e), e.i, f).requests;
  }

  lemma StepRetimed(cfg: Config, s: State, e: Event, i: nat, f: Time)
    requires Enabled(s, e) && Pending(Apply(cfg, s, e), i)
    ensures Enabled(WithReading(cfg, s, i, f), Retime(e, i, f))
    ensures Apply(cfg, WithReading(cfg, s, i, f), Retime(e, i, f)) == WithReading(cfg, Apply(cfg, s, e), i, f)
  {
    if !e.Start? && e.i == i {
      OwnRetimed(cfg, s, e, f);
    } else if WritingIn(s, i) {
      OthersUnmoved(cfg, s, e, i);
      OtherUnaware(cfg, s, e, i, Timed(cfg, s.requests[i].phase, f));
    } else if i < |s.requests| {
      OthersUnmoved(cfg, s, e, i);
    }
  }

  /** Until the lookup commits, its answer could as well have come at any other time: nobody has noticed. */
  lemma {:induction false} RetimedRuns(cfg: Config, es: seq<Event>, i: nat, f: Time)
    requires Legal(cfg, INITIAL, es) && Pending(Exec(cfg, INITIAL, es), i)
    ensures Legal(cfg, INITIAL, Retimed(es, i, f))
    ensures Exec(cfg, INITIAL, Retimed(es, i, f)) == WithReading(cfg, Exec(cfg, INITIAL, es), i, f)
    decreases |es|
  {
    if es != [] {
      var n := |es| - 1;
      var s, e, run := Exec(cfg, INITIAL, es[..n]), es[n], Retimed(es[..n], i, f);
      PendingBefore(cfg, s, e, i);
      RetimedRuns(cfg, es[..n], i, f);
      StepRetimed(cfg, s, e, i, f);
      Extend(cfg, run, Retime(e, i, f));
    }
  }

  lemma Extend(cfg: Config, es: seq<Event>, e: Event)
    requires Legal(cfg, INITIAL, es) && Enabled(Exec(cfg, INITIAL, es), e)
    ensures Legal(cfg, INITIAL, es + [e]) && Exec(cfg, INITIAL, es + [e]) == Apply(cfg, Exec(cfg, INITIAL, es), e)
  {
    assert (es + [e])[..|es|] == es;
  }

  // ---- Commits that keep apart, whenever the provider answers ----

  /** The commit comes after a lookup of `ip` that replaces a row. */
  predicate Replaces(s: State, e: Event, ip: Address)
    requires Enabled(s, e)
  {
    Commits(e) && s.requests[e.i].ip == ip && ip in s.table
  }

  /** After the run, timed differently, the commit stores a record fetched at least `gap` after the row it replaces. */
  ghost predicate StoresLater(cfg: Config, es: seq<Event>, e: Event, ip: Address, gap: Time, f: Time)
    requires Legal(cfg, INITIAL, es) && Enabled(Exec(cfg, INITIAL, es), e) && Replaces(Exec(cfg, INITIAL, es), e, ip)
  {
    var run := Retimed(es, e.i, f) + [e];
    && Legal(cfg, INITIAL, run) && ip in Exec(cfg, INITIAL, run).table
    && Exec(cfg, INITIAL, es).table[ip].record.fetchedAt + gap <= Exec(cfg, INITIAL, run).table[ip].record.fetchedAt
  }

  /** And so it does whenever the provider answers, if the clock does not fall back within the lookup. */
  ghost predicate AlwaysStoresLater(cfg: Config, es: seq<Event>, e: Event, ip: Address, gap: Time)
    requires Legal(cfg, INITIAL, es) && Enabled(Exec(cfg, INITIAL, es), e)
  {
    var s := Exec(cfg, INITIAL, es);
    Replaces(s, e, ip) ==> forall f :: s.requests[e.i].started <= f ==> StoresLater(cfg, es, e, ip, gap, f)
  }

  lemma StoredAt(cfg: Config, es: seq<Event>, e: Event, ip: Address, f: Time)
    requires Legal(cfg, INITIAL, es) && Enabled(Exec(cfg, INITIAL, es), e) && Replaces(Exec(cfg, INITIAL, es), e, ip)
    ensures var run := Retimed(es, e.i, f) + [e];
            && Legal(cfg, INITIAL, run) && ip in Exec(cfg, INITIAL, run).table
            && Exec(cfg, INITIAL, run).table[ip].record.fetchedAt == f
  {
    RetimedRuns(cfg, es, e.i, f);
    Extend(cfg, Retimed(es, e.i, f), e);
  }

  /** That is so exactly if the row was fetched at least `gap` before the lookup started. */
  lemma GuardIsExact(cfg: Config, es: seq<Event>, e: Event, ip: Address, gap: Time)
    requires Legal(cfg, INITIAL, es) && Enabled(Exec(cfg, INITIAL, es), e)
    ensures AlwaysStoresLater(cfg, es, e, ip, gap) <==> Guards(Exec(cfg, INITIAL, es), e, ip, gap)
  {
    var s := Exec(cfg, INITIAL, es);
    if Replaces(s, e, ip) {
      var started := s.requests[e.i].started;
      forall f ensures StoresLater(cfg, es, e, ip, gap, f) <==> s.table[ip].record.fetchedAt + gap <= f {
        StoredAt(cfg, es, e, ip, f);
      }
      if AlwaysStoresLater(cfg, es, e, ip, gap) {
        assert StoresLater(cfg, es, e, ip, gap, started);
      }
    }
  }

  ghost predicate AllStoreLater(cfg: Config, es: seq<Event>, ip: Address, gap: Time)
    requires Legal(cfg, INITIAL, es)
    decreases |es|
  {
    es != [] ==>
      var n := |es| - 1;
      AllStoreLater(cfg, es[..n], ip, gap) && AlwaysStoresLater(cfg, es[..n], es[n], ip, gap)
  }

  /**
    In a run, every commit for `ip` stores a record fetched at least `gap` after the one it replaces, whenever
    its lookup is answered, exactly if every such row was fetched at least `gap` before that lookup started.
   */
  lemma {:induction false} GuardedIff(cfg: Config, es: seq<Event>, ip: Address, gap: Time)
    requires Legal(cfg, INITIAL, es)
    ensures AllStoreLater(cfg, es, ip, gap) <==> Guarded(cfg, es, ip, gap)
    decreases |es|
  {
    if es != [] {
      var n := |es| - 1;
      GuardedIff(cfg, es[..n], ip, gap);
      GuardIsExact(cfg, es[..n], es[n], ip, gap);
    }
  }

  // ---- What the condition means, and how it fails ----

  /** For a gap of one TTL it is the guard of a miss, asked of the row that is replaced. */
  lemma GuardIsStaleness(cfg: Config, es: seq<Event>, e: Event, ip: Address)
    requires Legal(cfg, INITIAL, es) && Enabled(Exec(cfg, INITIAL, es), e)
    requires Replaces(Exec(cfg, INITIAL, es), e, ip)
    ensures var s := Exec(cfg, INITIAL, es);
            Guards(s, e, ip, cfg.ttl) <==> !Fresh(Get(s.table, ip), s.requests[e.i].started)
  {
    RunsKeepInv(cfg, es);
    RowIsTimed(cfg, Exec(cfg, INITIAL, es), ip);
  }

  /** Nobody has committed twice, and who is about to commit has not. */
  lemma {:induction false} WritersArePast(cfg: Config, es: seq<Event>, ip: Address)
    requires Legal(cfg, INITIAL, es)
    ensures WritersPast(Exec(cfg, INITIAL, es), ip)
    decreases |es|
  {
    if es != [] {
      var n := |es| - 1;
      var s, e := Exec(cfg, INITIAL, es[..n]), es[n];
      WritersArePast(cfg, es[..n], ip);
      RunsKeepInv(cfg, es[..n]);
      if Commits(e) {
        assert Sound(cfg, s.commits, s.requests[e.i]);
      }
      WritersStayPast(cfg, s, e, ip);
    }
  }

  /** The k-th commit is another lookup's, of the same address, and came after the SELECT of lookup `i`. */
  predicate Overtakes(s: State, i: nat, k: nat)
    requires i < |s.requests|
  {
    && s.requests[i].seen <= k < |s.commits|
    && s.commits[k].record.ip == s.requests[i].ip && s.commits[k].writer != i
  }

  /**
    A commit without that guard has been overtaken: another lookup committed the row after this one's SELECT,
    so that the two overlap.
   */
  lemma UnguardedIsOvertaken(cfg: Config, es: seq<Event>, e: Event, ip: Address, gap: Time) returns (k: nat)
    requires Legal(cfg, INITIAL, es) && Enabled(Exec(cfg, INITIAL, es), e) && gap <= cfg.ttl
    requires !Guards(Exec(cfg, INITIAL, es), e, ip, gap)
    ensures var s := Exec(cfg, INITIAL, es);
            Overtakes(s, e.i, k) && s.commits[k].record == s.table[ip].record
    ensures !Separate(cfg, es, ip)
  {
    var s := Exec(cfg, INITIAL, es);
    var q := s.requests[e.i];
    RunsKeepInv(cfg, es);
    WritersArePast(cfg, es, ip);
    RowIsTimed(cfg, s, ip);
    FirstIffLast(s.commits, ip);
    assert Sound(cfg, s.commits, q);
    k := LastCommitAt(s.commits, ip);
    assert WriterPast(s, s.commits[k]);
    if k < q.seen {
      SeenLast(s.commits, ip, k, q.seen);
      FirstIffLast(s.commits[..q.seen], ip);
    }
    Extend(cfg, es, e);
    assert (es + [e])[..|es|] == es;
    if Separate(cfg, es, ip) {
      SeparateIsGuarded(cfg, es + [e], ip, gap);
    }
  }

  lemma SeenLast(commits: seq<Commit>, ip: Address, k: nat, seen: nat)
    requires IsLast(commits, ip, k) && k < seen <= |commits|
    ensures LastCommit(commits[..seen], ip) == Some(commits[k])
  {
    assert forall m {:trigger commits[..seen][m]} :: 0 <= m < seen ==> commits[..seen][m] == commits[m];
    LastCommitIsLast(commits[..seen], ip, k);
  }

  lemma {:induction false} LastCommitAt(commits: seq<Commit>, ip: Address) returns (k: nat)
    requires LastCommit(commits, ip).Some?
    ensures IsLast(commits, ip, k) && commits[k] == LastCommit(commits, ip).value
    decreases |commits|
  {
    var n := |commits| - 1;
    if commits[n].record.ip == ip {
      k := n;
    } else {
      k := LastCommitAt(commits[..n], ip);
    }
  }
}
