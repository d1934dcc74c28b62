/** How a lookup that is left alone continues a run of the protocol, stage by stage. */
module Simulation {
  import opened Wrappers
  import opened Domain
  import opened Upstream
  import opened Protocol
  import opened Balance

  /** What becomes of an upsert: it is acknowledged, or it fails before or after its commit. */
  datatype Fate = Acknowledged | LostBefore | LostAfter

  /** What one lookup meets: its clock readings, the provider's replies, and what the database does. */
  datatype World = World(now: Time, readable: bool, attempts: nat -> Attempt, fetchedAt: Time, stamp: Time, fate: Fate)

  lemma Then(cfg: Config, es: seq<Event>, e: Event)
    requires Legal(cfg, INITIAL, es) && Enabled(Exec(cfg, INITIAL, es), e)
    ensures Legal(cfg, INITIAL, es + [e]) && Exec(cfg, INITIAL, es + [e]) == Apply(cfg, Exec(cfg, INITIAL, es), e)
  {
    assert (es + [e])[..|es|] == es;
  }

  /** `run` continues `past`, and only lookup `i` has moved. */
  ghost predicate Continues(cfg: Config, past: seq<Event>, run: seq<Event>, i: nat, phase: Phase)
  {
    && past <= run && Legal(cfg, INITIAL, past) && Legal(cfg, INITIAL, run)
    && i < |Exec(cfg, INITIAL, past).requests|
    && var s := Exec(cfg, INITIAL, past);
       Exec(cfg, INITIAL, run).requests == s.requests[i := s.requests[i].(phase := phase)]
  }

  /** After the read stage: no row could be read, or a fresh one served the lookup, or it is a miss. */
  function AfterRead(row: Option<Row>, ip: Address, w: World): Phase
  {
    if !w.readable then Failed(AtRead) else if Fresh(row, w.now) then Served(Hit(ip, row.value)) else Asking(0)
  }

  function AfterAttempts(cfg: Config, ip: Address, w: World, made: nat): Phase
    requires made >= 1
  {
    match Judge(w.attempts(made - 1))
    case Usable(a) => Saving(CacheRecord(ip, a, w.fetchedAt, w.fetchedAt + cfg.ttl), w.stamp)
    case Retryable(kind) => Failed(AtProvider(kind))
    case Fatal(kind) => Failed(AtProvider(kind))
  }

  function AfterUpsert(record: CacheRecord, fate: Fate): Phase
  {
    if fate.Acknowledged? then Served(AsResult(record, Provider)) else Failed(AtUpsert)
  }

  /** `t` has one more lookup than `s`, of this address and in this phase, and the same table. */
  ghost predicate Opened(s: State, t: State, replica: Replica, ip: Address, now: Time, phase: Phase)
  {
    && t.table == s.table && |t.requests| == |s.requests| + 1
    && var q := t.requests[|s.requests|];
       && t.requests == s.requests + [q]
       && q.replica == replica && q.ip == ip && q.started == now && q.phase == phase
  }

  lemma ReadSucceeds(cfg: Config, past: seq<Event>, replica: Replica, ip: Address, w: World) returns (run: seq<Event>)
    requires Legal(cfg, INITIAL, past) && w.readable
    ensures past <= run && Legal(cfg, INITIAL, run)
    ensures var i := |Exec(cfg, INITIAL, past).requests|;
            run == past + [Start(replica, ip, w.now), Select(i), ReadReturns(i)]
    ensures var s := Exec(cfg, INITIAL, past);
            Opened(s, Exec(cfg, INITIAL, run), replica, ip, w.now, AfterRead(Get(s.table, ip), ip, w))
  {
    var s := Exec(cfg, INITIAL, past);
    var i := |s.requests|;
    Then(cfg, past, Start(replica, ip, w.now));
    var begun := past + [Start(replica, ip, w.now)];
    Then(cfg, begun, Select(i));
    var selected := begun + [Select(i)];
    var u := Exec(cfg, INITIAL, selected);
    assert u.table == s.table;
    assert u.requests == s.requests + [Request(replica, ip, w.now, |s.commits|, Selected(Get(s.table, ip)))];
    ReadAnswered(cfg, selected, s.requests, replica, ip, w);
    run := selected + [ReadReturns(i)];
    ThreeMore(past, Start(replica, ip, w.now), Select(i), ReadReturns(i));
  }

  lemma ThreeMore(past: seq<Event>, a: Event, b: Event, c: Event)
    ensures past + [a] + [b] + [c] == past + [a, b, c]
  {
  }

  lemma ReadAnswered(cfg: Config, past: seq<Event>, before: seq<Request>, replica: Replica, ip: Address, w: World)
    requires Legal(cfg, INITIAL, past) && w.readable
    requires var s := Exec(cfg, INITIAL, past);
             && |s.requests| == |before| + 1 && var q := s.requests[|before|];
             && s.requests == before + [q] && q.phase == Selected(Get(s.table, ip))
             && q.replica == replica && q.ip == ip && q.started == w.now
    ensures Legal(cfg, INITIAL, past + [ReadReturns(|before|)])
    ensures var s, t := Exec(cfg, INITIAL, past), Exec(cfg, INITIAL, past + [ReadReturns(|before|)]);
            Opened(s.(requests := before), t, replica, ip, w.now, AfterRead(Get(s.table, ip), ip, w))
  {
    Then(cfg, past, ReadReturns(|before|));
  }

  lemma ReadBreaks(cfg: Config, past: seq<Event>, replica: Replica, ip: Address, w: World) returns (run: seq<Event>)
    requires Legal(cfg, INITIAL, past) && !w.readable
    ensures past <= run && Legal(cfg, INITIAL, run)
    ensures run == past + [Start(replica, ip, w.now), ReadFails(|Exec(cfg, INITIAL, past).requests|)]
    ensures Opened(Exec(cfg, INITIAL, past), Exec(cfg, INITIAL, run), replica, ip, w.now, Failed(AtRead))
  {
    var i := |Exec(cfg, INITIAL, past).requests|;
    Then(cfg, past, Start(replica, ip, w.now));
    var begun := past + [Start(replica, ip, w.now)];
    Then(cfg, begun, ReadFails(i));
    run := begun + [ReadFails(i)];
  }

  /** The answers to the attempts of a lookup from the m-th on, before the n-th. */
  function Answers(i: nat, w: World, m: nat, n: nat): (events: seq<Event>)
    requires m <= n
    ensures |events| == n - m
    ensures forall k :: 0 <= k < n - m ==> events[k] == AttemptReturns(i, w.attempts(m + k), w.fetchedAt, w.stamp)
    decreases n - m
  {
    if m == n then [] else [AttemptReturns(i, w.attempts(m), w.fetchedAt, w.stamp)] + Answers(i, w, m + 1, n)
  }

  lemma AnswersAppend(i: nat, w: World, m: nat)
    ensures Answers(i, w, 0, m) + [AttemptReturns(i, w.attempts(m), w.fetchedAt, w.stamp)] == Answers(i, w, 0, m + 1)
  {
  }

  lemma AnswersJoin(asked: seq<Event>, i: nat, w: World, m: nat, n: nat)
    requires m <= n
    ensures asked + Answers(i, w, m, n) ==
            if m == n then asked
            else asked + [AttemptReturns(i, w.attempts(m), w.fetchedAt, w.stamp)] + Answers(i, w, m + 1, n)
  {
  }

  /** Lookup `i` has made `n` attempts in vain, and nothing else has happened. */
  ghost predicate Retried(cfg: Config, past: seq<Event>, run: seq<Event>, i: nat, n: nat)
  {
    Continues(cfg, past, run, i, Asking(n)) && Exec(cfg, INITIAL, run).table == Exec(cfg, INITIAL, past).table
  }

  lemma {:induction false} RetryStage(cfg: Config, past: seq<Event>, asked: seq<Event>, i: nat, w: World, m: nat,
                                      n: nat) returns (run: seq<Event>)
    requires Retried(cfg, past, asked, i, m) && m <= n && Going(w.attempts, cfg.maxRetries, n)
    ensures Retried(cfg, past, run, i, n) && run == asked + Answers(i, w, m, n)
    decreases n - m
  {
    AnswersJoin(asked, i, w, m, n);
    run := asked;
    if m < n {
      var once := RetryOnce(cfg, past, asked, i, w, m);
      run := RetryStage(cfg, past, once, i, w, m + 1, n);
    }
  }

  lemma RetryOnce(cfg: Config, past: seq<Event>, asked: seq<Event>, i: nat, w: World, n: nat) returns (run: seq<Event>)
    requires Retried(cfg, past, asked, i, n) && Going(w.attempts, cfg.maxRetries, n + 1)
    ensures Retried(cfg, past, run, i, n + 1)
    ensures run == asked + [AttemptReturns(i, w.attempts(n), w.fetchedAt, w.stamp)]
  {
    var e := AttemptReturns(i, w.attempts(n), w.fetchedAt, w.stamp);
    assert !StopsAfter(w.attempts, cfg.maxRetries, n);
    Then(cfg, asked, e);
    run := asked + [e];
  }

  lemma AskStage(cfg: Config, past: seq<Event>, i: nat, w: World, made: nat) returns (run: seq<Event>)
    requires Legal(cfg, INITIAL, past)
    requires i < |Exec(cfg, INITIAL, past).requests| && Exec(cfg, INITIAL, past).requests[i].phase == Asking(0)
    requires Makes(w.attempts, cfg.maxRetries, made)
    ensures Continues(cfg, past, run, i, AfterAttempts(cfg, Exec(cfg, INITIAL, past).requests[i].ip, w, made))
    ensures Exec(cfg, INITIAL, run).table == Exec(cfg, INITIAL, past).table
    ensures run == past + Answers(i, w, 0, made)
  {
    ContinueNone(cfg, past, i);
    var asked := RetryStage(cfg, past, past, i, w, 0, made - 1);
    run := LastAttempt(cfg, asked, i, w, made);
    var ip := Exec(cfg, INITIAL, past).requests[i].ip;
    ContinueTwice(cfg, past, asked, run, i, Asking(made - 1), AfterAttempts(cfg, ip, w, made));
    AnswersAppend(i, w, made - 1);
  }

  lemma LastAttempt(cfg: Config, past: seq<Event>, i: nat, w: World, made: nat) returns (run: seq<Event>)
    requires Legal(cfg, INITIAL, past) && Makes(w.attempts, cfg.maxRetries, made)
    requires i < |Exec(cfg, INITIAL, past).requests| && Exec(cfg, INITIAL, past).requests[i].phase == Asking(made - 1)
    ensures Continues(cfg, past, run, i, AfterAttempts(cfg, Exec(cfg, INITIAL, past).requests[i].ip, w, made))
    ensures Exec(cfg, INITIAL, run).table == Exec(cfg, INITIAL, past).table
    ensures run == past + [AttemptReturns(i, w.attempts(made - 1), w.fetchedAt, w.stamp)]
  {
    var e := AttemptReturns(i, w.attempts(made - 1), w.fetchedAt, w.stamp);
    assert StopsAfter(w.attempts, cfg.maxRetries, made - 1);
    LastMoves(cfg, Exec(cfg, INITIAL, past), i, w, made);
    Then(cfg, past, e);
    run := past + [e];
  }

  lemma LastMoves(cfg: Config, s: State, i: nat, w: World, made: nat)
    requires i < |s.requests| && made >= 1 && s.requests[i].phase == Asking(made - 1)
    requires StopsAfter(w.attempts, cfg.maxRetries, made - 1)
    ensures var t := Apply(cfg, s, AttemptReturns(i, w.attempts(made - 1), w.fetchedAt, w.stamp));
            && t.table == s.table
            && t.requests == s.requests[i := s.requests[i].(phase := AfterAttempts(cfg, s.requests[i].ip, w, made))]
  {
  }

  lemma ContinueNone(cfg: Config, past: seq<Event>, i: nat)
    requires Legal(cfg, INITIAL, past) && i < |Exec(cfg, INITIAL, past).requests|
    ensures Continues(cfg, past, past, i, Exec(cfg, INITIAL, past).requests[i].phase)
  {
  }

  lemma ContinueTwice(cfg: Config, past: seq<Event>, middle: seq<Event>, run: seq<Event>, i: nat, p: Phase, p': Phase)
    requires Continues(cfg, past, middle, i, p) && Continues(cfg, middle, run, i, p')
    ensures Continues(cfg, past, run, i, p')
  {
  }

  /** How an upsert goes that nothing interrupts. */
  function Storing(i: nat, fate: Fate): seq<Event>
  {
    match fate
    case Acknowledged => [CommitRow(i), Acknowledge(i)]
    case LostBefore => [UpsertFails(i), Abort(i)]
    case LostAfter => [CommitRow(i), UpsertFails(i)]
  }

  lemma UpsertStage(cfg: Config, past: seq<Event>, i: nat, fate: Fate) returns (run: seq<Event>)
    requires Legal(cfg, INITIAL, past)
    requires i < |Exec(cfg, INITIAL, past).requests| && Exec(cfg, INITIAL, past).requests[i].phase.Saving?
    ensures run == past + Storing(i, fate)
    ensures Continues(cfg, past, run, i, AfterUpsert(Exec(cfg, INITIAL, past).requests[i].phase.record, fate))
    ensures var s := Exec(cfg, INITIAL, past);
            var q := s.requests[i];
            Exec(cfg, INITIAL, run).table ==
            if fate.LostBefore? then s.table
            else s.table[q.ip := Upserted(Get(s.table, q.ip), q.phase.record, q.phase.stamp)]
  {
    if fate.LostBefore? {
      run := past + [UpsertFails(i), Abort(i)];
      LostStage(cfg, past, i);
    } else {
      Then(cfg, past, CommitRow(i));
      run := ReportStage(cfg, past + [CommitRow(i)], i, fate);
    }
  }

  lemma LostStage(cfg: Config, past: seq<Event>, i: nat)
    requires Legal(cfg, INITIAL, past)
    requires i < |Exec(cfg, INITIAL, past).requests| && Exec(cfg, INITIAL, past).requests[i].phase.Saving?
    ensures Continues(cfg, past, past + [UpsertFails(i), Abort(i)], i, Failed(AtUpsert))
    ensures Exec(cfg, INITIAL, past + [UpsertFails(i), Abort(i)]).table == Exec(cfg, INITIAL, past).table
  {
    var told := past + [UpsertFails(i)];
    Then(cfg, past, UpsertFails(i));
    Then(cfg, told, Abort(i));
    assert told + [Abort(i)] == past + [UpsertFails(i), Abort(i)];
  }

  lemma ReportStage(cfg: Config, past: seq<Event>, i: nat, fate: Fate) returns (run: seq<Event>)
    requires Legal(cfg, INITIAL, past) && !fate.LostBefore?
    requires i < |Exec(cfg, INITIAL, past).requests| && Exec(cfg, INITIAL, past).requests[i].phase.Stored?
    ensures Continues(cfg, past, run, i, AfterUpsert(Exec(cfg, INITIAL, past).requests[i].phase.record, fate))
    ensures Exec(cfg, INITIAL, run).table == Exec(cfg, INITIAL, past).table
    ensures run == past + [if fate.Acknowledged? then Acknowledge(i) else UpsertFails(i)]
  {
    var e := if fate.Acknowledged? then Acknowledge(i) else UpsertFails(i);
    Then(cfg, past, e);
    run := past + [e];
  }

  /** A new lookup of the replica adds to its counters exactly what its phase counts. */
  lemma CountersGrow(cfg: Config, past: seq<Event>, run: seq<Event>, q: Request, x: Sample)
    requires Legal(cfg, INITIAL, past) && Legal(cfg, INITIAL, run)
    requires Exec(cfg, INITIAL, run).requests == Exec(cfg, INITIAL, past).requests + [q]
    ensures Counted(Exec(cfg, INITIAL, run), q.replica)[x]
            == Counted(Exec(cfg, INITIAL, past), q.replica)[x]
               + if q.replica in cfg.instrumented then One(Counts(q.phase, x)) else 0
  {
    CountersMean(cfg, past, q.replica, x);
    CountersMean(cfg, run, q.replica, x);
    TallyAppend(Exec(cfg, INITIAL, past).requests, q, q.replica, x);
  }

  /** Where a lookup ends that meets `w` and finds `row`; its provider lookup, if any, makes `made` attempts. */
  function Outcome(cfg: Config, row: Option<Row>, ip: Address, w: World, made: nat): Phase
    requires made >= 1
  {
    var read := AfterRead(row, ip, w);
    var asked := AfterAttempts(cfg, ip, w, made);
    if !read.Asking? then read else if !asked.Saving? then asked else AfterUpsert(asked.record, w.fate)
  }

  function TableAfter(cfg: Config, table: map<Address, Row>, ip: Address, w: World, made: nat): map<Address, Row>
    requires made >= 1
  {
    var asked := AfterAttempts(cfg, ip, w, made);
    if AfterRead(Get(table, ip), ip, w).Asking? && asked.Saving? && !w.fate.LostBefore? then
      table[ip := Upserted(Get(table, ip), asked.record, asked.stamp)]
    else table
  }

  lemma MissRun(cfg: Config, past: seq<Event>, i: nat, w: World, made: nat) returns (run: seq<Event>)
    requires Legal(cfg, INITIAL, past) && Makes(w.attempts, cfg.maxRetries, made)
    requires i < |Exec(cfg, INITIAL, past).requests| && Exec(cfg, INITIAL, past).requests[i].phase == Asking(0)
    ensures var s := Exec(cfg, INITIAL, past);
            var asked := AfterAttempts(cfg, s.requests[i].ip, w, made);
            Continues(cfg, past, run, i, if asked.Saving? then AfterUpsert(asked.record, w.fate) else asked)
    ensures var s := Exec(cfg, INITIAL, past);
            var ip := s.requests[i].ip;
            var asked := AfterAttempts(cfg, ip, w, made);
            Exec(cfg, INITIAL, run).table ==
            if asked.Saving? && !w.fate.LostBefore? then
              s.table[ip := Upserted(Get(s.table, ip), asked.record, asked.stamp)]
            else s.table
    ensures var asked := AfterAttempts(cfg, Exec(cfg, INITIAL, past).requests[i].ip, w, made);
            run == past + Answers(i, w, 0, made) + if asked.Saving? then Storing(i, w.fate) else []
  {
    var asked := AfterAttempts(cfg, Exec(cfg, INITIAL, past).requests[i].ip, w, made);
    run := AskStage(cfg, past, i, w, made);
    if asked.Saving? {
      var middle := run;
      run := UpsertStage(cfg, middle, i, w.fate);
      ContinueTwice(cfg, past, middle, run, i, asked, AfterUpsert(asked.record, w.fate));
    }
  }

  /** Some continuation of any run performs the whole lookup, and nothing else. */
  lemma WholeLookup(cfg: Config, past: seq<Event>, replica: Replica, ip: Address, w: World, made: nat)
    returns (run: seq<Event>, q: Request)
    requires Legal(cfg, INITIAL, past) && Makes(w.attempts, cfg.maxRetries, made)
    ensures past <= run && Legal(cfg, INITIAL, run)
    ensures var s, t := Exec(cfg, INITIAL, past), Exec(cfg, INITIAL, run);
            && t.requests == s.requests + [q]
            && q.replica == replica && q.ip == ip && q.started == w.now
            && q.phase == Outcome(cfg, Get(s.table, ip), ip, w, made)
            && t.table == TableAfter(cfg, s.table, ip, w, made)
    ensures var s := Exec(cfg, INITIAL, past);
            var i, read := |s.requests|, AfterRead(Get(s.table, ip), ip, w);
            run == past + (if w.readable then [Start(replica, ip, w.now), Select(i), ReadReturns(i)]
                           else [Start(replica, ip, w.now), ReadFails(i)])
                   + (if read.Asking? then Answers(i, w, 0, made) else [])
                   + (if read.Asking? && AfterAttempts(cfg, ip, w, made).Saving? then Storing(i, w.fate) else [])
  {
    var s := Exec(cfg, INITIAL, past);
    var i := |s.requests|;
    if w.readable {
      run := ReadSucceeds(cfg, past, replica, ip, w);
    } else {
      run := ReadBreaks(cfg, past, replica, ip, w);
    }
    var begun := run;
    var read := Exec(cfg, INITIAL, begun);
    q := read.requests[i];
    if q.phase.Asking? {
      run := MissRun(cfg, begun, i, w, made);
      var t := Exec(cfg, INITIAL, run);
      q := t.requests[i];
      assert t.requests == s.requests + [q];
    }
  }

  /** The counters of a replica that has performed one more lookup, and nothing else. */
  lemma CountersAfter(cfg: Config, past: seq<Event>, run: seq<Event>, q: Request, after: Counters)
    requires Legal(cfg, INITIAL, past) && Legal(cfg, INITIAL, run)
    requires Exec(cfg, INITIAL, run).requests == Exec(cfg, INITIAL, past).requests + [q]
    requires forall x :: after[x] == Counted(Exec(cfg, INITIAL, past), q.replica)[x]
                                     + if q.replica in cfg.instrumented then One(Counts(q.phase, x)) else 0
    ensures Counted(Exec(cfg, INITIAL, run), q.replica) == after
  {
    forall x ensures Counted(Exec(cfg, INITIAL, run), q.replica)[x] == after[x] {
      CountersGrow(cfg, past, run, q, x);
    }
  }
}
