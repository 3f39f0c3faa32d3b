/** Runs and inputs that show which promises the code does not keep, and so why the theorems
    about them carry the hypotheses and conditions they carry. */
module Witnesses {
  import opened Basics
  import opened Tables
  import opened Protocol
  import opened Invariants
  import opened LifecycleRuns
  import opened Repeats
  import opened ConflictBranch
  import opened ErrorLogging
  import Pagination
  import Retry

  const CLOCK := Clock(1, 1, 2)

  /** Two files with one correlation_id and different contents, and one with the contents of the first
      under another correlation_id. */
  const FIRST := Batch(7, "a.csv", Ventas, 100, 3)
  const SECOND := Batch(7, "b.csv", Ventas, 200, 5)
  const OTHER := Batch(8, "c.csv", Ventas, 100, 3)

  /** The tables after a rejected attempt was logged: sync 10 is a failed parent of correlation_id 7. */
  const PARENT_DB := Db(map[10 := FailedParent(7, CLOCK)], map[], map[20 := LogRow(7, ChecksumMismatch)], map[])

  const PARENT_READ := Read(10, FailedParent(7, CLOCK))

  /** The tables after FIRST, or after OTHER, was stored on top of that. */
  const STORED_DB := Db(map[10 := CompletedSync(FIRST, CLOCK)], map[30 := FileOf(FIRST, 10)],
                        map[20 := LogRow(7, ChecksumMismatch)], map[])
  const ELSEWHERE_DB := Db(map[10 := FailedParent(7, CLOCK), 12 := CompletedSync(OTHER, CLOCK)],
                           map[30 := FileOf(OTHER, 12)], map[20 := LogRow(7, ChecksumMismatch)], map[])

  /** And after SECOND was stored as well. */
  const BOTH_DB := STORED_DB.(archivos := map[30 := FileOf(FIRST, 10), 31 := FileOf(SECOND, 10)])

  const BOTH_READ := Read(10, CompletedSync(SECOND, CLOCK))

  const STORED_SECOND := Response(7, 10, Completed, "b.csv", Ventas, 200, 5)
  const STORED := Response(7, 10, Completed, "a.csv", Ventas, 100, 3)

  // ----- single steps: the run `es` goes on -----

  lemma Arrives(es: seq<Event>, rid: Rid, req: Request) returns (run: seq<Event>)
    requires rid !in Exec(INIT, es).reqs && Initial(req)
    ensures Exec(INIT, run) == State(Exec(INIT, es).db, Exec(INIT, es).reqs[rid := req])
  {
    ExecSnoc(INIT, es, Arrive(rid, req));
    run := es + [Arrive(rid, req)];
  }

  lemma LoggerLooks(es: seq<Event>) returns (run: seq<Event>)
    requires var s := Exec(INIT, es);
      s.db == EMPTY_DB && 0 in s.reqs && s.reqs[0] == ErrorLog(7, ChecksumMismatch, LStart)
    ensures var req := ErrorLog(7, ChecksumMismatch, LParent(false));
      Exec(INIT, run) == State(EMPTY_DB, Exec(INIT, es).reqs[0 := req])
  {
    ExecSnoc(INIT, es, SelectParent(0));
    run := es + [SelectParent(0)];
  }

  lemma LoggerCommits(es: seq<Event>) returns (run: seq<Event>)
    requires var s := Exec(INIT, es);
      s.db == EMPTY_DB && 0 in s.reqs && s.reqs[0] == ErrorLog(7, ChecksumMismatch, LParent(false))
    ensures Exec(INIT, run) == State(PARENT_DB, Exec(INIT, es).reqs[0 := ErrorLog(7, ChecksumMismatch, LDone(true))])
  {
    ExecSnoc(INIT, es, CommitLog(0, 10, 20, CLOCK));
    run := es + [CommitLog(0, 10, 20, CLOCK)];
  }

  lemma FindsNoSync(es: seq<Event>, rid: Rid, b: Batch) returns (run: seq<Event>)
    requires var s := Exec(INIT, es); rid in s.reqs && s.reqs[rid] == Ingest(b, Start) && !HasCid(s.db, b.cid)
    ensures Exec(INIT, run) == State(Exec(INIT, es).db, Exec(INIT, es).reqs[rid := Ingest(b, PreChecked(None))])
  {
    ExecSnoc(INIT, es, SelectSync(rid, None));
    run := es + [SelectSync(rid, None)];
  }

  lemma FindsParent(es: seq<Event>, rid: Rid, b: Batch) returns (run: seq<Event>)
    requires var s := Exec(INIT, es);
      s.db == PARENT_DB && rid in s.reqs && s.reqs[rid] == Ingest(b, Start) && b.cid == 7
    ensures Exec(INIT, run) == State(PARENT_DB, Exec(INIT, es).reqs[rid := Ingest(b, RowRead(PARENT_READ))])
  {
    ExecSnoc(INIT, es, SelectSync(rid, Some(10)));
    run := es + [SelectSync(rid, Some(10))];
  }

  lemma FindsNoFile(es: seq<Event>, rid: Rid, b: Batch) returns (run: seq<Event>)
    requires var s := Exec(INIT, es);
      s.db == PARENT_DB && rid in s.reqs && s.reqs[rid] == Ingest(b, RowRead(PARENT_READ))
    ensures Exec(INIT, run) == State(PARENT_DB, Exec(INIT, es).reqs[rid := Ingest(b, PreChecked(Some(PARENT_READ)))])
  {
    ExecSnoc(INIT, es, LoadFiles(rid, None));
    run := es + [LoadFiles(rid, None)];
  }

  lemma CommitsFirst(es: seq<Event>) returns (run: seq<Event>)
    requires var s := Exec(INIT, es);
      s.db == PARENT_DB && 1 in s.reqs && s.reqs[1] == Ingest(FIRST, PreChecked(Some(PARENT_READ)))
    ensures Exec(INIT, run) == State(STORED_DB, Exec(INIT, es).reqs[1 := Ingest(FIRST, Created(STORED, 30))])
  {
    ExecSnoc(INIT, es, CommitIngest(1, 11, 30, CLOCK));
    run := es + [CommitIngest(1, 11, 30, CLOCK)];
  }

  lemma CommitsSecond(es: seq<Event>) returns (run: seq<Event>)
    requires var s := Exec(INIT, es);
      s.db == STORED_DB && 2 in s.reqs && s.reqs[2] == Ingest(SECOND, PreChecked(Some(PARENT_READ)))
    ensures Exec(INIT, run) == State(BOTH_DB, Exec(INIT, es).reqs[2 := Ingest(SECOND, Created(STORED_SECOND, 31))])
  {
    ExecSnoc(INIT, es, CommitIngest(2, 12, 31, CLOCK));
    run := es + [CommitIngest(2, 12, 31, CLOCK)];
  }

  lemma CommitsElsewhere(es: seq<Event>) returns (run: seq<Event>)
    requires var s := Exec(INIT, es); s.db == PARENT_DB && 3 in s.reqs && s.reqs[3] == Ingest(OTHER, PreChecked(None))
    ensures var body := Response(8, 12, Completed, "c.csv", Ventas, 100, 3);
      Exec(INIT, run) == State(ELSEWHERE_DB, Exec(INIT, es).reqs[3 := Ingest(OTHER, Created(body, 30))])
  {
    ExecSnoc(INIT, es, CommitIngest(3, 12, 30, CLOCK));
    run := es + [CommitIngest(3, 12, 30, CLOCK)];
  }

  lemma ConflictsWithParent(es: seq<Event>) returns (run: seq<Event>)
    requires var s := Exec(INIT, es); s.db == PARENT_DB && 1 in s.reqs && s.reqs[1] == Ingest(FIRST, PreChecked(None))
    ensures Exec(INIT, run) == State(PARENT_DB, Exec(INIT, es).reqs[1 := Ingest(FIRST, Conflicted)])
  {
    ExecSnoc(INIT, es, CommitIngest(1, 11, 30, CLOCK));
    assert 10 in PARENT_DB.syncs && PARENT_DB.syncs[10].cid == 7;
    run := es + [CommitIngest(1, 11, 30, CLOCK)];
  }

  lemma RetryReads(es: seq<Event>) returns (run: seq<Event>)
    requires var s := Exec(INIT, es);
      s.db == PARENT_DB && 2 in s.reqs && s.reqs[2] == Remediation(10, RetryJob, Remediate, RStart)
    ensures var req := Remediation(10, RetryJob, Remediate, RReady(PARENT_READ, {}));
      Exec(INIT, run) == State(PARENT_DB, Exec(INIT, es).reqs[2 := req])
  {
    ExecSnoc(INIT, es, GetSync(2));
    run := es + [GetSync(2)];
  }

  lemma RetryCommitsLate(es: seq<Event>) returns (run: seq<Event>)
    requires var s := Exec(INIT, es);
      s.db == STORED_DB && 2 in s.reqs && s.reqs[2] == Remediation(10, RetryJob, Remediate, RReady(PARENT_READ, {}))
    ensures Exec(INIT, run).db.syncs == map[10 := CompletedSync(FIRST, CLOCK).(estado := Running)]
  {
    ExecSnoc(INIT, es, CommitRemediation(2, 40));
    run := es + [CommitRemediation(2, 40)];
  }

  lemma LoadsStored(es: seq<Event>) returns (run: seq<Event>)
    requires var s := Exec(INIT, es);
      s.db == STORED_DB && 2 in s.reqs && s.reqs[2] == Ingest(FIRST, RowRead(PARENT_READ))
    ensures var req := Ingest(FIRST, Replaying(PARENT_READ, 30, FileOf(FIRST, 10)));
      Exec(INIT, run) == State(STORED_DB, Exec(INIT, es).reqs[2 := req])
  {
    ExecSnoc(INIT, es, LoadFiles(2, Some(30)));
    run := es + [LoadFiles(2, Some(30))];
  }

  lemma AnswersStale(es: seq<Event>) returns (run: seq<Event>)
    requires var s := Exec(INIT, es);
      s.db == STORED_DB && 2 in s.reqs && s.reqs[2] == Ingest(FIRST, Replaying(PARENT_READ, 30, FileOf(FIRST, 10)))
    ensures Exec(INIT, run).reqs == Exec(INIT, es).reqs[2 := Ingest(FIRST, Replayed(STORED.(estado := Failed), 30))]
  {
    ExecSnoc(INIT, es, LogDuplicate(2, 21));
    assert 10 in STORED_DB.syncs && STORED_DB.syncs[10].cid == 7;
    run := es + [LogDuplicate(2, 21)];
  }

  lemma FindsBoth(es: seq<Event>) returns (run: seq<Event>)
    requires var s := Exec(INIT, es); s.db == BOTH_DB && 3 in s.reqs && s.reqs[3] == Ingest(SECOND, Start)
    ensures Exec(INIT, run) == State(BOTH_DB, Exec(INIT, es).reqs[3 := Ingest(SECOND, RowRead(BOTH_READ))])
  {
    ExecSnoc(INIT, es, SelectSync(3, Some(10)));
    run := es + [SelectSync(3, Some(10))];
  }

  lemma LoadsFirstOfBoth(es: seq<Event>) returns (run: seq<Event>)
    requires var s := Exec(INIT, es);
      s.db == BOTH_DB && 3 in s.reqs && s.reqs[3] == Ingest(SECOND, RowRead(BOTH_READ))
    ensures var req := Ingest(SECOND, Replaying(BOTH_READ, 30, FileOf(FIRST, 10)));
      Exec(INIT, run) == State(BOTH_DB, Exec(INIT, es).reqs[3 := req])
  {
    ExecSnoc(INIT, es, LoadFiles(3, Some(30)));
    run := es + [LoadFiles(3, Some(30))];
  }

  lemma AnswersFirst(es: seq<Event>) returns (run: seq<Event>)
    requires var s := Exec(INIT, es);
      s.db == BOTH_DB && 3 in s.reqs && s.reqs[3] == Ingest(SECOND, Replaying(BOTH_READ, 30, FileOf(FIRST, 10)))
    ensures Exec(INIT, run).reqs == Exec(INIT, es).reqs[3 := Ingest(SECOND, Replayed(STORED, 30))]
  {
    ExecSnoc(INIT, es, LogDuplicate(3, 21));
    assert 10 in BOTH_DB.syncs && BOTH_DB.syncs[10].cid == 7;
    run := es + [LogDuplicate(3, 21)];
  }

  // ----- stretches -----

  /** A rejected attempt is logged. */
  lemma LogsParent(es: seq<Event>) returns (run: seq<Event>)
    requires Exec(INIT, es).db == EMPTY_DB && 0 !in Exec(INIT, es).reqs
    ensures Exec(INIT, run) == State(PARENT_DB, Exec(INIT, es).reqs[0 := ErrorLog(7, ChecksumMismatch, LDone(true))])
  {
    var r1 := Arrives(es, 0, ErrorLog(7, ChecksumMismatch, LStart));
    var r2 := LoggerLooks(r1);
    run := LoggerCommits(r2);
  }

  /** A request arrives and reads the failed parent's row. */
  lemma ReadsParent(es: seq<Event>, rid: Rid, b: Batch) returns (run: seq<Event>)
    requires Exec(INIT, es).db == PARENT_DB && rid !in Exec(INIT, es).reqs && b.cid == 7
    ensures Exec(INIT, run) == State(PARENT_DB, Exec(INIT, es).reqs[rid := Ingest(b, RowRead(PARENT_READ))])
  {
    var r1 := Arrives(es, rid, Ingest(b, Start));
    run := FindsParent(r1, rid, b);
  }

  /** A request arrives and passes the pre-check on the failed parent. */
  lemma PassesPreCheck(es: seq<Event>, rid: Rid, b: Batch) returns (run: seq<Event>)
    requires Exec(INIT, es).db == PARENT_DB && rid !in Exec(INIT, es).reqs && b.cid == 7
    ensures Exec(INIT, run) == State(PARENT_DB, Exec(INIT, es).reqs[rid := Ingest(b, PreChecked(Some(PARENT_READ)))])
  {
    var r1 := ReadsParent(es, rid, b);
    run := FindsNoFile(r1, rid, b);
  }

  /** A conflict of correlation_id 7 ends in a 422 while its sync has no file. */
  lemma ReraisesOnParent(es: seq<Event>)
    requires var s := Exec(INIT, es);
      && IsIngest(s, 1) && s.reqs[1] == Ingest(FIRST, Conflicted)
      && 10 in s.db.syncs && s.db.syncs[10].cid == 7 && !HasFile(s.db, 10)
    ensures var s := Exec(Exec(INIT, es), LookupEvents(1, Some(10), None, None));
      IsReraised(s, 1) && s.db == Exec(INIT, es).db
  {
    assert FilelessParent(Exec(INIT, es).db, 7);
    ConflictOutcome(es, 1, Some(10), None, None);
  }

  // ----- what can happen -----

  /** Two ingests pass the pre-check on the failed parent, and both commit. */
  lemma StoresBoth() returns (run: seq<Event>)
    ensures Exec(INIT, run) == State(BOTH_DB, map[0 := ErrorLog(7, ChecksumMismatch, LDone(true)),
                                                  1 := Ingest(FIRST, Created(STORED, 30)),
                                                  2 := Ingest(SECOND, Created(STORED_SECOND, 31))])
  {
    var r0 := LogsParent([]);
    var r1 := PassesPreCheck(r0, 1, FIRST);
    var r2 := PassesPreCheck(r1, 2, SECOND);
    var r3 := CommitsFirst(r2);
    run := CommitsSecond(r3);
  }

  /** Two ingests that both read the failed parent before either commits are both answered 201
      when their checksums differ: the second write is an UPDATE of the sync, so the index
      on correlation_id does not fire and the sync ends up with two files. */
  lemma TwoFilesOneSync()
    ensures exists es :: var s := Exec(INIT, es);
      && IsCreated(s, 1) && IsCreated(s, 2) && s.reqs[1].batch.cid == s.reqs[2].batch.cid
      && s.reqs[1].ph.body.syncId == s.reqs[2].ph.body.syncId && |s.db.archivos| == 2
  {
    var run := StoresBoth();
    assert IsCreated(Exec(INIT, run), 2);
  }

  /** The very batch that was answered 201 is sent again and answered 200 with the name, the checksum and
      the count of another file of its sync, because the files have no order. Nobody retried, and both
      bodies say completed. */
  lemma RepeatGetsAnotherFile()
    ensures exists es :: var s := Exec(INIT, es);
      && IsCreated(s, 2) && IsIngest(s, 3) && s.reqs[3].ph.Replayed? && s.reqs[3].batch == s.reqs[2].batch
      && !Retried(s, s.reqs[3].ph.body.syncId) && s.reqs[3].ph.body.estado == s.reqs[2].ph.body.estado == Completed
      && s.reqs[3].ph.body.digest != s.reqs[3].batch.digest && s.reqs[3].ph.body.nombre != s.reqs[2].ph.body.nombre
  {
    var r0 := StoresBoth();
    var r1 := Arrives(r0, 3, Ingest(SECOND, Start));
    var r2 := FindsBoth(r1);
    var r3 := LoadsFirstOfBoth(r2);
    var r4 := AnswersFirst(r3);
    assert Exec(INIT, r4).reqs.Keys == {0, 1, 2, 3};
    assert IsCreated(Exec(INIT, r4), 2);
  }

  /** A valid ingest whose checksum was never stored is re-raised and lost, because an error log
      of the same correlation_id inserted its failed parent between the pre-check and the commit. */
  lemma LoggerRaceReraises()
    ensures exists es :: var s := Exec(INIT, es); IsReraised(s, 1) && s.db.archivos == map[]
  {
    var r1 := Arrives([], 1, Ingest(FIRST, Start));
    var r2 := FindsNoSync(r1, 1, FIRST);
    var r3 := LogsParent(r2);
    var r4 := ConflictsWithParent(r3);
    ReraisesOnParent(r4);
    ExecAppend(INIT, r4, LookupEvents(1, Some(10), None, None));
    assert IsReraised(Exec(INIT, r4 + LookupEvents(1, Some(10), None, None)), 1);
  }

  /** A state in which a rejected attempt of correlation_id 7 is logged and the contents of FIRST are stored
      under correlation_id 8. */
  lemma StoredElsewhere() returns (run: seq<Event>)
    ensures var s := Exec(INIT, run);
      s.db == ELSEWHERE_DB && 1 !in s.reqs && forall r :: r in s.reqs ==> Final(s.reqs[r])
  {
    var r0 := LogsParent([]);
    var r1 := Arrives(r0, 3, Ingest(OTHER, Start));
    var r2 := FindsNoSync(r1, 3, OTHER);
    run := CommitsElsewhere(r2);
  }

  lemma ConflictsElsewhere(es: seq<Event>)
    requires Exec(INIT, es).db == ELSEWHERE_DB && 1 !in Exec(INIT, es).reqs
    ensures var s := Exec(Exec(INIT, es), IngestEvents(1, FIRST, Some(10), 11, 31, CLOCK));
      IsIngest(s, 1) && s.reqs[1] == Ingest(FIRST, Conflicted) && s.db == ELSEWHERE_DB
  {
    ExecIngest(Exec(INIT, es), 1, FIRST, Some(10), 11, 31, CLOCK);
    assert 30 in ELSEWHERE_DB.archivos && ELSEWHERE_DB.archivos[30].digest == FIRST.digest;
  }

  lemma LooksUpElsewhere(es: seq<Event>)
    requires Exec(INIT, es).db == ELSEWHERE_DB && 1 !in Exec(INIT, es).reqs
    ensures var s := Exec(Exec(INIT, es), IngestEvents(1, FIRST, Some(10), 11, 31, CLOCK));
      IsReraised(Exec(s, LookupEvents(1, Some(10), None, None)), 1)
  {
    ConflictsElsewhere(es);
    ExecAppend(INIT, es, IngestEvents(1, FIRST, Some(10), 11, 31, CLOCK));
    ReraisesOnParent(es + IngestEvents(1, FIRST, Some(10), 11, 31, CLOCK));
  }

  lemma AloneElsewhere(es: seq<Event>) returns (own: seq<Event>)
    requires Exec(INIT, es).db == ELSEWHERE_DB && 1 !in Exec(INIT, es).reqs
    ensures (forall e: Event :: e in own ==> e.rid == 1) && IsReraised(Exec(Exec(INIT, es), own), 1)
  {
    var ingest := IngestEvents(1, FIRST, Some(10), 11, 31, CLOCK);
    var lookup := LookupEvents(1, Some(10), None, None);
    LooksUpElsewhere(es);
    ExecAppend(Exec(INIT, es), ingest, lookup);
    own := ingest + lookup;
  }

  /** The same 422 without any race: nobody else is running, the request's own correlation_id has a failed
      parent, and its checksum is stored under another correlation_id. The look-up stops at the
      parent and never tries the checksum. */
  lemma StoredElsewhereReraises()
    ensures exists es: seq<Event>, own: seq<Event> ::
      && (forall r :: r in Exec(INIT, es).reqs ==> Final(Exec(INIT, es).reqs[r]))
      && (forall e: Event :: e in own ==> e.rid == 1)
      && IsReraised(Exec(Exec(INIT, es), own), 1) && HasDigest(Exec(INIT, es).db, FIRST.digest)
  {
    var es := StoredElsewhere();
    var own := AloneElsewhere(es);
    assert 30 in ELSEWHERE_DB.archivos && ELSEWHERE_DB.archivos[30].digest == FIRST.digest;
  }

  /** A RETRY_JOB that read the failed parent and commits after an ingest completed it writes
      only the estado: the sync shows as running with its finalizado_at set. */
  lemma StaleRetryLeavesFinished()
    ensures exists es :: var s := Exec(INIT, es);
      10 in s.db.syncs && s.db.syncs[10].estado == Running && s.db.syncs[10].finalizado == Some(2)
  {
    var r0 := LogsParent([]);
    var r1 := Arrives(r0, 2, Remediation(10, RetryJob, Remediate, RStart));
    var r2 := RetryReads(r1);
    var r3 := PassesPreCheck(r2, 1, FIRST);
    var r4 := CommitsFirst(r3);
    var r5 := RetryCommitsLate(r4);
    assert Exec(INIT, r5).db.syncs[10].estado == Running;
  }

  /** A replay whose row was read before the winner's commit and whose files were read after it
      answers 200 with estado failed, although the 201 said completed and nobody retried. */
  lemma ReplayShowsStaleFailed()
    ensures exists es :: var s := Exec(INIT, es);
      && IsIngest(s, 2) && s.reqs[2].ph.Replayed? && ReplayOf(s, 2, 1) && s.reqs[1].batch == s.reqs[2].batch
      && !Retried(s, s.reqs[2].ph.body.syncId)
      && s.reqs[1].ph.body.estado == Completed && s.reqs[2].ph.body.estado == Failed
  {
    var r0 := LogsParent([]);
    var r1 := ReadsParent(r0, 2, FIRST);
    var r2 := PassesPreCheck(r1, 1, FIRST);
    var r3 := CommitsFirst(r2);
    var r4 := LoadsStored(r3);
    var r5 := AnswersStale(r4);
    var s := Exec(INIT, r5);
    assert ReplayOf(s, 2, 1) && s.reqs.Keys == {0, 1, 2};
  }

  /** One row is counted, a newer one is inserted, and with pages of one row the first page shows only the
      newer one and announces no other: the walk ends without the row it counted. */
  lemma CountedRowPushedOut(tables: nat -> set<nat>)
    requires Pagination.Growing(tables) && tables(0) == {0, 1}
    ensures Pagination.FullWalk({0}, tables, 1) == [1]
  {
    Pagination.ShortWalk({0}, tables, 1);
    Pagination.NewestIsSorted({0, 1});
    assert 0 in Pagination.Newest({0, 1}) && 1 in Pagination.Newest({0, 1});
    assert Pagination.Newest({0, 1}) == [1, 0];
  }

  /** A liveness probe that raises a non-retryable exception leaves its connection open. */
  lemma ProbeLeaksConnection(draws: nat -> real)
    ensures var t := Retry.Acquire(_ => Retry.ProbeRaises, draws, Retry.Policy(0.5, 3, 0.25), 0);
      t.result == Retry.Raised && t.opens - t.closes == 1
  {
  }
}
