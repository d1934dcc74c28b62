/**
  The cache-aside protocol: any number of lookups, in any number of replicas, interleave at every
  await over one shared table. A run is a sequence of events from the empty table.
 */
module Protocol {
  import opened Wrappers
  import opened Domain
  import opened Upstream

  type Replica = nat

  /** `instrumented` are the replicas whose metrics are enabled. */
  datatype Config = Config(ttl: Time, maxRetries: nat, instrumented: set<Replica>)

  /** Where a lookup stands between two awaits. */
  datatype Phase =
    | Reading                                     // the SELECT is on its way
    | Selected(row: Option<Row>)                  // it ran; its answer is on its way back
    | Asking(made: nat)                           // a miss; `made` provider attempts have failed
    | Saving(record: CacheRecord, stamp: Time)    // the upsert is on its way
    | Stored(record: CacheRecord)                 // it committed; the acknowledgement is on its way back
    | Served(result: LookupResult)
    | Doubtful(record: CacheRecord, stamp: Time)  // reported as failed, but it may still commit
    | Failed(stage: Stage)

  datatype Stage = AtRead | AtProvider(kind: ProviderError) | AtUpsert

  /** A lookup; `seen` counts the commits that had happened when its SELECT ran. */
  datatype Request = Request(replica: Replica, ip: Address, started: Time, seen: nat, phase: Phase)

  datatype Commit = Commit(record: CacheRecord, stamp: Time, writer: nat)

  /**
    The shared table, all lookups so far, and each replica's counters; and for reasoning the commits
    in their order.
   */
  datatype State = State(
    table: map<Address, Row>, requests: seq<Request>, counters: map<Replica, Counters>, commits: seq<Commit>)

  datatype Event =
    | Start(replica: Replica, ip: Address, now: Time)
    | Select(i: nat)
    | ReadReturns(i: nat)
    | ReadFails(i: nat)
    | AttemptReturns(i: nat, attempt: Attempt, fetchedAt: Time, stamp: Time)
    | CommitRow(i: nat)
    | Acknowledge(i: nat)
    | UpsertFails(i: nat)
    | CommitLate(i: nat)
    | Abort(i: nat)

  const INITIAL := State(map[], [], map[], [])

  function Get(table: map<Address, Row>, ip: Address): Option<Row>
  {
    if ip in table then Some(table[ip]) else None
  }

  /** Insert, or on conflict update everything but the creation time. */
  function Upserted(previous: Option<Row>, record: CacheRecord, stamp: Time): Row
  {
    Row(record, if previous.Some? then previous.value.createdAt else stamp, stamp)
  }

  function Hit(ip: Address, row: Row): LookupResult
  {
    LookupResult(ip, row.record.answer.countryCode, row.record.answer.countryName, Database,
                 row.record.fetchedAt, row.record.expiresAt)
  }

  predicate Fresh(row: Option<Row>, now: Time)
  {
    row.Some? && row.value.record.expiresAt > now
  }

  predicate Finished(phase: Phase)
  {
    phase.Served? || phase.Failed?
  }

  predicate Enabled(s: State, e: Event)
  {
    e.Start? ||
    (e.i < |s.requests| &&
     var phase := s.requests[e.i].phase;
     match e
     case Select(_) => phase.Reading?
     case ReadReturns(_) => phase.Selected?
     case ReadFails(_) => phase.Reading? || phase.Selected?
     case AttemptReturns(_, _, _, _) => phase.Asking?
     case CommitRow(_) => phase.Saving?
     case Acknowledge(_) => phase.Stored?
     case UpsertFails(_) => phase.Saving? || phase.Stored?
     case CommitLate(_) => phase.Doubtful?
     case Abort(_) => phase.Doubtful?)
  }

  function Counted(s: State, r: Replica): Counters
  {
    if r in s.counters then s.counters[r] else multiset{}
  }

  /** Lookup `i` moves on and its replica counts the samples if its metrics are enabled. */
  function Move(cfg: Config, s: State, i: nat, phase: Phase, samples: Counters): State
    requires i < |s.requests|
  {
    var q := s.requests[i];
    s.(requests := s.requests[i := q.(phase := phase)],
       counters := if q.replica in cfg.instrumented
                   then s.counters[q.replica := Counted(s, q.replica) + samples] else s.counters)
  }

  function Apply(cfg: Config, s: State, e: Event): State
    requires Enabled(s, e)
  {
    match e
    case Start(replica, ip, now) =>
      s.(requests := s.requests + [Request(replica, ip, now, 0, Reading)])
    case Select(i) =>
      var q := s.requests[i];
      s.(requests := s.requests[i := q.(phase := Selected(Get(s.table, q.ip)), seen := |s.commits|)])
    case ReadReturns(i) =>
      var q := s.requests[i];
      if Fresh(q.phase.row, q.started) then
        Move(cfg, s, i, Served(Hit(q.ip, q.phase.row.value)),
             multiset{DatabaseOperations(Read), Lookups(Database, true)})
      else
        Move(cfg, s, i, Asking(0), multiset{DatabaseOperations(Read)})
    case ReadFails(i) =>
      Move(cfg, s, i, Failed(AtRead), multiset{DatabaseErrors(Read), DatabaseOperations(Read)})
    case AttemptReturns(i, attempt, fetchedAt, stamp) =>
      var (q, v) := (s.requests[i], Judge(attempt));
      if !Final(v, q.phase.made + 1, cfg.maxRetries) then
        Move(cfg, s, i, Asking(q.phase.made + 1), multiset{})
      else if v.Usable? then
        Move(cfg, s, i, Saving(CacheRecord(q.ip, v.answer, fetchedAt, fetchedAt + cfg.ttl), stamp),
             ConclusionSamples(v))
      else
        Move(cfg, s, i, Failed(AtProvider(v.kind)), ConclusionSamples(v) + multiset{Lookups(Provider, false)})
    case CommitRow(i) =>
      Committing(Move(cfg, s, i, Stored(s.requests[i].phase.record), multiset{}), i, s.requests[i].phase.record,
                 s.requests[i].phase.stamp)
    case Acknowledge(i) =>
      Move(cfg, s, i, Served(AsResult(s.requests[i].phase.record, Provider)),
           multiset{DatabaseOperations(Upsert), Lookups(Provider, true)})
    case UpsertFails(i) =>
      var phase := s.requests[i].phase;
      Move(cfg, s, i, if phase.Saving? then Doubtful(phase.record, phase.stamp) else Failed(AtUpsert),
           multiset{DatabaseErrors(Upsert), DatabaseOperations(Upsert), Lookups(Provider, false)})
    case CommitLate(i) =>
      Committing(Move(cfg, s, i, Failed(AtUpsert), multiset{}), i,
                 s.requests[i].phase.record, s.requests[i].phase.stamp)
    case Abort(i) =>
      Move(cfg, s, i, Failed(AtUpsert), multiset{})
  }

  /** The row of lookup `i` reaches the table. */
  function Committing(s: State, i: nat, record: CacheRecord, stamp: Time): State
    requires i < |s.requests|
  {
    var ip := s.requests[i].ip;
    s.(table := s.table[ip := Upserted(Get(s.table, ip), record, stamp)],
       commits := s.commits + [Commit(record, stamp, i)])
  }

  /** A sequence of events possible from `s`. */
  predicate Legal(cfg: Config, s: State, es: seq<Event>)
    decreases |es|, 0
  {
    es == [] || (Legal(cfg, s, es[..|es| - 1]) && Enabled(Exec(cfg, s, es[..|es| - 1]), es[|es| - 1]))
  }

  function Exec(cfg: Config, s: State, es: seq<Event>): State
    requires Legal(cfg, s, es)
    decreases |es|, 1
  {
    if es == [] then s else Apply(cfg, Exec(cfg, s, es[..|es| - 1]), es[|es| - 1])
  }

  // ---- The table is the log of commits, read backwards ----

  function LastCommit(commits: seq<Commit>, ip: Address): Option<Commit>
  {
    if commits == [] then None
    else if commits[|commits| - 1].record.ip == ip then Some(commits[|commits| - 1])
    else LastCommit(commits[..|commits| - 1], ip)
  }

  function FirstCommit(commits: seq<Commit>, ip: Address): Option<Commit>
  {
    if commits == [] then None
    else if commits[0].record.ip == ip then Some(commits[0])
    else FirstCommit(commits[1..], ip)
  }

  /** The payload and update time of the last commit, the creation time of the first. */
  function RowOf(commits: seq<Commit>, ip: Address): Option<Row>
  {
    match (FirstCommit(commits, ip), LastCommit(commits, ip))
    case (Some(first), Some(last)) => Some(Row(last.record, first.stamp, last.stamp))
    case _ => None
  }

  lemma {:induction false} FirstCommitAppend(commits: seq<Commit>, c: Commit, ip: Address)
    ensures FirstCommit(commits + [c], ip) ==
            if FirstCommit(commits, ip).Some? then FirstCommit(commits, ip)
            else if c.record.ip == ip then Some(c) else None
    decreases |commits|
  {
    if commits == [] {
      assert [] + [c] == [c] && [c][1..] == [];
    } else {
      FirstCommitAppend(commits[1..], c, ip);
      assert (commits + [c])[1..] == commits[1..] + [c];
    }
  }

  lemma {:induction false} FirstIffLast(commits: seq<Commit>, ip: Address)
    ensures FirstCommit(commits, ip).Some? <==> LastCommit(commits, ip).Some?
    decreases |commits|
  {
    if commits != [] {
      var n := |commits| - 1;
      FirstIffLast(commits[..n], ip);
      FirstCommitAppend(commits[..n], commits[n], ip);
      assert commits == commits[..n] + [commits[n]];
    }
  }

  lemma RowOfAppend(commits: seq<Commit>, c: Commit, ip: Address)
    ensures RowOf(commits + [c], ip) ==
            if c.record.ip == ip then Some(Upserted(RowOf(commits, ip), c.record, c.stamp)) else RowOf(commits, ip)
  {
    FirstCommitAppend(commits, c, ip);
    FirstIffLast(commits, ip);
    assert (commits + [c])[..|commits|] == commits;
  }

  lemma {:induction false} LastCommitIn(commits: seq<Commit>, ip: Address)
    requires LastCommit(commits, ip).Some?
    ensures LastCommit(commits, ip).value in commits && LastCommit(commits, ip).value.record.ip == ip
    decreases |commits|
  {
    if commits[|commits| - 1].record.ip != ip {
      LastCommitIn(commits[..|commits| - 1], ip);
    }
  }

  // ---- The invariant ----

  ghost predicate TableIsLog(s: State)
  {
    forall ip :: Get(s.table, ip) == RowOf(s.commits, ip)
  }

  /** A record that the TTL times and that fits the table's columns. */
  predicate WellFormed(cfg: Config, record: CacheRecord)
  {
    record.expiresAt == record.fetchedAt + cfg.ttl && FitsColumns(record.answer)
  }

  /** The row the lookup's SELECT saw. */
  function Witnessed(commits: seq<Commit>, q: Request): Option<Row>
    requires q.seen <= |commits|
  {
    RowOf(commits[..q.seen], q.ip)
  }

  ghost predicate Sound(cfg: Config, commits: seq<Commit>, q: Request)
  {
    && q.seen <= |commits|
    && match q.phase
       case Reading => true
       case Selected(row) => row == Witnessed(commits, q)
       case Asking(made) => made <= cfg.maxRetries && !Fresh(Witnessed(commits, q), q.started)
       case Saving(record, _) =>
         record.ip == q.ip && WellFormed(cfg, record) && !Fresh(Witnessed(commits, q), q.started)
       case Doubtful(record, _) =>
         record.ip == q.ip && WellFormed(cfg, record) && !Fresh(Witnessed(commits, q), q.started)
       case Stored(record) => record.ip == q.ip && WellFormed(cfg, record) && !Fresh(Witnessed(commits, q), q.started)
       case Served(result) =>
         if result.source.Database? then
           Fresh(Witnessed(commits, q), q.started) && result == Hit(q.ip, Witnessed(commits, q).value)
         else
           && !Fresh(Witnessed(commits, q), q.started)
           && exists record: CacheRecord ::
                record.ip == q.ip && WellFormed(cfg, record) && result == AsResult(record, Provider)
       case Failed(_) => true
  }

  ghost predicate AllSound(cfg: Config, s: State)
  {
    && (forall k :: 0 <= k < |s.commits| ==> WellFormed(cfg, s.commits[k].record))
    && (forall i :: 0 <= i < |s.requests| ==> Sound(cfg, s.commits, s.requests[i]))
  }

  lemma SoundGrows(cfg: Config, commits: seq<Commit>, more: seq<Commit>, q: Request)
    requires Sound(cfg, commits, q) && commits <= more
    ensures Sound(cfg, more, q)
  {
    assert more[..q.seen] == commits[..q.seen];
  }

  /** The event commits a row. */
  predicate Commits(e: Event)
  {
    e.CommitRow? || e.CommitLate?
  }

  lemma TableStaysLog(cfg: Config, s: State, e: Event)
    requires Enabled(s, e) && TableIsLog(s)
    requires Commits(e) ==> s.requests[e.i].phase.record.ip == s.requests[e.i].ip
    ensures TableIsLog(Apply(cfg, s, e))
  {
    if Commits(e) {
      var q := s.requests[e.i];
      var c := Commit(q.phase.record, q.phase.stamp, e.i);
      forall ip ensures Get(Apply(cfg, s, e).table, ip) == RowOf(s.commits + [c], ip) {
        RowOfAppend(s.commits, c, ip);
        assert Get(s.table, ip) == RowOf(s.commits, ip);
      }
    }
  }

  /** The lookup an event moves is sound afterwards. */
  lemma MovedSound(cfg: Config, s: State, e: Event)
    requires Enabled(s, e) && !e.Start? && Sound(cfg, s.commits, s.requests[e.i])
    requires Get(s.table, s.requests[e.i].ip) == RowOf(s.commits, s.requests[e.i].ip)
    ensures var t := Apply(cfg, s, e); Sound(cfg, t.commits, t.requests[e.i])
  {
    var t, q := Apply(cfg, s, e), s.requests[e.i];
    match e
    case Select(i) =>
      assert s.commits[..|s.commits|] == s.commits;
    case AttemptReturns(i, _, _, _) =>
      AnsweredSound(cfg, s, e);
    case CommitRow(i) =>
      assert t.commits[..q.seen] == s.commits[..q.seen];
    case Acknowledge(i) =>
      AcknowledgedSound(cfg, s.commits, q);
    case _ =>
  }

  lemma AnsweredSound(cfg: Config, s: State, e: Event)
    requires Enabled(s, e) && e.AttemptReturns? && Sound(cfg, s.commits, s.requests[e.i])
    ensures var t := Apply(cfg, s, e); Sound(cfg, t.commits, t.requests[e.i])
  {
    UsableFitsColumns(e.attempt);
  }

  lemma AcknowledgedSound(cfg: Config, commits: seq<Commit>, q: Request)
    requires q.phase.Stored? && Sound(cfg, commits, q)
    ensures Sound(cfg, commits, q.(phase := Served(AsResult(q.phase.record, Provider))))
  {
    var record := q.phase.record;
    assert WellFormed(cfg, record);
  }

  /** An event adds at most one commit and moves one lookup. */
  lemma OthersUnmoved(cfg: Config, s: State, e: Event, i: nat)
    requires Enabled(s, e) && i < |s.requests| && (e.Start? || i != e.i)
    ensures var t := Apply(cfg, s, e);
            && i < |t.requests| && t.requests[i] == s.requests[i]
            && s.commits <= t.commits
  {
  }

  lemma StaysSound(cfg: Config, s: State, e: Event)
    requires Enabled(s, e) && TableIsLog(s) && AllSound(cfg, s)
    ensures AllSound(cfg, Apply(cfg, s, e))
  {
    var t := Apply(cfg, s, e);
    forall i | 0 <= i < |t.requests| ensures Sound(cfg, t.commits, t.requests[i]) {
      if e.Start? && i == |s.requests| {
      } else {
        assert Sound(cfg, s.commits, s.requests[i]);
        if e.Start? || i != e.i {
          OthersUnmoved(cfg, s, e, i);
          SoundGrows(cfg, s.commits, t.commits, s.requests[i]);
        } else {
          assert Get(s.table, s.requests[i].ip) == RowOf(s.commits, s.requests[i].ip);
          MovedSound(cfg, s, e);
        }
      }
    }
    CommitsStayWellFormed(cfg, s, e);
  }

  lemma CommitsStayWellFormed(cfg: Config, s: State, e: Event)
    requires Enabled(s, e) && AllSound(cfg, s)
    ensures var t := Apply(cfg, s, e);
            forall k :: 0 <= k < |t.commits| ==> WellFormed(cfg, t.commits[k].record)
  {
    var t := Apply(cfg, s, e);
    if Commits(e) {
      assert Sound(cfg, s.commits, s.requests[e.i]);
    }
    forall k | 0 <= k < |t.commits| ensures WellFormed(cfg, t.commits[k].record) {
      if k < |s.commits| {
        assert WellFormed(cfg, s.commits[k].record);
      }
    }
  }

  ghost predicate Inv(cfg: Config, s: State)
  {
    TableIsLog(s) && AllSound(cfg, s)
  }

  /** Every reachable state satisfies the invariant. */
  lemma {:induction false} RunsKeepInv(cfg: Config, es: seq<Event>)
    requires Legal(cfg, INITIAL, es)
    ensures Inv(cfg, Exec(cfg, INITIAL, es))
    decreases |es|
  {
    if es != [] {
      var n := |es| - 1;
      RunsKeepInv(cfg, es[..n]);
      var s := Exec(cfg, INITIAL, es[..n]);
      if Commits(es[n]) {
        assert Sound(cfg, s.commits, s.requests[es[n].i]);
      }
      TableStaysLog(cfg, s, es[n]);
      StaysSound(cfg, s, es[n]);
    }
  }
}
