/** What the estado and finalizado_at columns can say, over whole runs. A remediation reads
    its sync in one statement and writes the columns it changed in another, so the promises
    about RETRY_JOB depend on what happens in between. */
module LifecycleRuns {
  import opened Basics
  import opened Tables
  import opened Protocol
  import opened Invariants

  /** In every run both unique indexes and all foreign keys hold after every step; no sync is ever
      pending or rejected, completed syncs own a file, failed ones own none and never finished. */
  lemma TablesInEveryRun(es: seq<Event>)
    ensures Integrity(Exec(INIT, es).db) && Lifecycle(Exec(INIT, es).db)
  {
    RunKeepsInv(es);
  }

  lemma ExtendsTransitive(a: Db, b: Db, c: Db)
    requires Extends(a, b) && Extends(b, c)
    ensures Extends(a, c)
  {
  }

  lemma {:induction false} RunExtends(s: State, es: seq<Event>)
    requires Inv(s)
    ensures Inv(Exec(s, es)) && Extends(s.db, Exec(s, es).db)
    decreases |es|
  {
    if es != [] {
      StepKeepsInv(s, es[0]);
      RunExtends(Step(s, es[0]), es[1..]);
      ExtendsTransitive(s.db, Step(s, es[0]).db, Exec(s, es).db);
    }
  }

  /** Once a sync owns a file it never shows as failed again, whatever happens next. */
  lemma FiledSyncNeverFails(es: seq<Event>, more: seq<Event>, id: Uuid)
    requires HasFile(Exec(INIT, es).db, id)
    ensures var s := Exec(INIT, es + more);
      HasFile(s.db, id) && id in s.db.syncs && s.db.syncs[id].estado in {Running, Completed}
  {
    var s := Exec(INIT, es);
    RunKeepsInv(es);
    ExecAppend(INIT, es, more);
    RunExtends(s, more);
    HasFileGrows(s.db, Exec(s, more).db, id);
    var k :| k in Exec(s, more).db.archivos && Exec(s, more).db.archivos[k].syncId == id;
  }

  // ----- RETRY_JOB -----

  predicate IsRetry(req: Request) {
    req.Remediation? && req.kind.Remediate? && req.accion == RetryJob
  }

  /** RETRY_JOB has no guard on the estado it starts from: undisturbed, it turns any sync into a
      running, unfinished one, records one success, and touches nothing else. */
  lemma RetryFromAnyEstado(s: State, rid: Rid, target: Uuid, newAccion: nat)
    requires rid !in s.reqs && target in s.db.syncs && newAccion !in s.db.acciones
    ensures var s' := Exec(s, [Arrive(rid, Remediation(target, RetryJob, Remediate, RStart)),
                               GetSync(rid), CommitRemediation(rid, newAccion)]);
      && rid in s'.reqs && s'.reqs[rid] == Remediation(target, RetryJob, Remediate, RDone)
      && s'.db.syncs == s.db.syncs[target := s.db.syncs[target].(estado := Running, finalizado := None)]
      && s'.db.acciones == s.db.acciones[newAccion := AccionRow(target, RetryJob, true)]
      && s'.db.archivos == s.db.archivos && s'.db.logs == s.db.logs
  {
    var req := Remediation(target, RetryJob, Remediate, RStart);
    var e1, e2, e3 := Arrive(rid, req), GetSync(rid), CommitRemediation(rid, newAccion);
    var s1 := Step(s, e1);
    var s2 := Step(s1, e2);
    assert s2.reqs[rid].rph == RReady(Read(target, s.db.syncs[target]), {});
    assert [e1, e2, e3][1..] == [e2, e3] && [e2, e3][1..] == [e3] && [e3][1..] == [];
    assert Exec(s, [e1, e2, e3]) == Exec(s1, [e2, e3]) == Exec(s2, [e3]) == Exec(Step(s2, e3), []);
  }

  /** With other requests between its read and its commit, in any state: RETRY_JOB leaves a running,
      unfinished sync exactly when no column it believes to be in place already has been changed. */
  lemma RetryTakesEffectExactly(s: State, rid: Rid, newAccion: nat)
    requires rid in s.reqs && IsRetry(s.reqs[rid]) && s.reqs[rid].rph.RReady?
    requires newAccion !in s.db.acciones && s.reqs[rid].target in s.db.syncs
    ensures var seen, now := s.reqs[rid].rph.read.row, s.db.syncs[s.reqs[rid].target];
      var after := Step(s, CommitRemediation(rid, newAccion)).db.syncs[s.reqs[rid].target];
      (after.estado == Running && after.finalizado == None) <==>
        (seen.estado == Running ==> now.estado == Running) && (seen.finalizado == None ==> now.finalizado == None)
  {
  }

  /** `e` commits a RETRY_JOB. */
  predicate RetryCommits(s: State, e: Event) {
    && e.CommitRemediation? && e.rid in s.reqs && IsRetry(s.reqs[e.rid]) && s.reqs[e.rid].rph.RReady?
    && e.newAccion !in s.db.acciones && s.reqs[e.rid].target in s.db.syncs
  }

  /** The row a RETRY_JOB has read. */
  function RetrySeen(s: State, e: Event): Sync
    requires RetryCommits(s, e)
  {
    s.reqs[e.rid].rph.read.row
  }

  /** Its sync as it is when it commits. */
  function RetryNow(s: State, e: Event): Sync
    requires RetryCommits(s, e)
  {
    s.db.syncs[s.reqs[e.rid].target]
  }

  /** A RETRY_JOB that read a failed sync commits when the sync has finished. */
  predicate Harmful(s: State, e: Event) {
    RetryCommits(s, e) && RetrySeen(s, e).estado == Failed && RetryNow(s, e).finalizado.Some?
  }

  ghost predicate RowRight(row: Sync) {
    (row.estado == Running ==> row.finalizado == None) && (row.estado == Completed ==> row.finalizado.Some?)
  }

  /** finalizado_at is null on running syncs and set on completed ones. */
  ghost predicate Finished(db: Db) {
    forall id :: id in db.syncs ==> RowRight(db.syncs[id])
  }

  ghost predicate RowFinished(row: Sync) {
    row.finalizado.Some? <==> row.estado == Completed
  }

  /** The rows a request may commit from are finished exactly when completed, and a sync that a
      RETRY_JOB did not see failed has not failed since. */
  ghost predicate RequestFinished(db: Db, req: Request) {
    match req
    case Ingest(_, RowRead(read)) => RowFinished(read.row)
    case Ingest(_, PreChecked(existing)) => existing.Some? ==> RowFinished(existing.value.row)
    case Remediation(target, _, _, RReady(read, _)) => IsRetry(req) ==>
      && RowFinished(read.row) && read.row.estado in {Running, Completed, Failed} && target in db.syncs
      && (db.syncs[target].estado == Failed ==> read.row.estado == Failed)
    case _ => true
  }

  ghost predicate ReadsFinished(s: State) {
    forall rid :: rid in s.reqs ==> RequestFinished(s.db, s.reqs[rid])
  }

  /** The status columns a step can leave on a sync. */
  lemma StatusAfterStep(s: State, e: Event, id: Uuid)
    requires id in Step(s, e).db.syncs
    ensures var after := Step(s, e).db.syncs[id];
      || (id in s.db.syncs && after == s.db.syncs[id])
      || (id !in s.db.syncs && e.CommitLog? && after.estado == Failed && after.finalizado == None
          && e.rid in s.reqs && s.reqs[e.rid].ErrorLog? && after.cid == s.reqs[e.rid].cid)
      || (id in s.db.syncs && RetryCommits(s, e) && id == s.reqs[e.rid].target
          && after == RetriedSync(s.reqs[e.rid].rph.read, s.db.syncs[id]))
      || (e.CommitIngest? && IsIngest(s, e.rid) && s.reqs[e.rid].ph.PreChecked?
          && (s.reqs[e.rid].ph.existing.Some? ==> s.reqs[e.rid].ph.existing.value.id in s.db.syncs)
          && id == TargetId(s.reqs[e.rid].ph.existing, e.newSync)
          && (id in s.db.syncs <==> s.reqs[e.rid].ph.existing.Some?)
          && after == CommittedSync(s.db, s.reqs[e.rid].batch, s.reqs[e.rid].ph.existing, e.clock))
  {
    match e
    case CommitIngest(rid, newSync, newFile, clock) =>
    case CommitLog(rid, newSync, newLog, clock) =>
    case CommitRemediation(rid, newAccion) =>
    case _ => assert Step(s, e).db.syncs == s.db.syncs;
  }

  /** Only an insert makes a sync fail. */
  lemma FailedWasFailed(s: State, e: Event, id: Uuid)
    requires id in s.db.syncs && id in Step(s, e).db.syncs && Step(s, e).db.syncs[id].estado == Failed
    ensures s.db.syncs[id].estado == Failed
  {
    StatusAfterStep(s, e, id);
  }

  lemma RetriedRowRight(read: Read, now: Sync)
    requires RowRight(now) && RowFinished(read.row) && read.row.estado in {Running, Completed, Failed}
    ensures RowRight(RetriedSync(read, now)) <==> !(read.row.estado == Failed && now.finalizado.Some?)
  {
  }

  lemma CommittedRowRight(db: Db, b: Batch, existing: Option<Read>, clock: Clock)
    requires existing.Some? ==> existing.value.id in db.syncs
    requires existing.Some? ==> existing.value.row.estado != Completed && RowFinished(existing.value.row)
    ensures RowRight(CommittedSync(db, b, existing, clock))
  {
  }

  lemma StepKeepsFinished(s: State, e: Event)
    requires Inv(s) && Finished(s.db) && ReadsFinished(s) && !Harmful(s, e)
    ensures Finished(Step(s, e).db)
  {
    var s' := Step(s, e);
    forall id | id in s'.db.syncs ensures RowRight(s'.db.syncs[id]) {
      StatusAfterStep(s, e, id);
      if e.rid in s.reqs { assert RequestOk(s.db, s.reqs[e.rid]) && RequestFinished(s.db, s.reqs[e.rid]); }
      if id in s.db.syncs && RetryCommits(s, e) && id == s.reqs[e.rid].target {
        RetriedRowRight(s.reqs[e.rid].rph.read, s.db.syncs[id]);
      }
      if e.CommitIngest? && IsIngest(s, e.rid) && s.reqs[e.rid].ph.PreChecked? {
        CommittedRowRight(s.db, s.reqs[e.rid].batch, s.reqs[e.rid].ph.existing, e.clock);
      }
    }
  }

  /** What the commit of a RETRY_JOB leaves on its sync. */
  lemma RetryWrites(s: State, e: Event)
    requires RetryCommits(s, e)
    ensures var id := s.reqs[e.rid].target;
      id in Step(s, e).db.syncs && Step(s, e).db.syncs[id] == RetriedSync(s.reqs[e.rid].rph.read, s.db.syncs[id])
  {
  }

  lemma HarmBreaksFinished(s: State, e: Event)
    requires Inv(s) && Finished(s.db) && ReadsFinished(s) && Harmful(s, e)
    ensures !Finished(Step(s, e).db)
  {
    var id := s.reqs[e.rid].target;
    assert RequestFinished(s.db, s.reqs[e.rid]);
    RetriedRowRight(s.reqs[e.rid].rph.read, s.db.syncs[id]);
    RetryWrites(s, e);
  }

  lemma FinishedRows(db: Db)
    requires Lifecycle(db) && Finished(db)
    ensures forall id :: id in db.syncs ==> RowFinished(db.syncs[id])
  {
  }

  lemma SelectedReadsFinished(s: State, e: Event)
    requires e.SelectSync? && Inv(s) && Finished(s.db) && ReadsFinished(s) && e.rid in Step(s, e).reqs
    ensures RequestFinished(s.db, Step(s, e).reqs[e.rid])
  {
    FinishedRows(s.db);
    if e.rid in s.reqs { assert RequestOk(s.db, s.reqs[e.rid]) && RequestFinished(s.db, s.reqs[e.rid]); }
  }

  lemma LoadedReadsFinished(s: State, e: Event)
    requires e.LoadFiles? && Inv(s) && Finished(s.db) && ReadsFinished(s) && e.rid in Step(s, e).reqs
    ensures RequestFinished(s.db, Step(s, e).reqs[e.rid])
  {
    if e.rid in s.reqs { assert RequestOk(s.db, s.reqs[e.rid]) && RequestFinished(s.db, s.reqs[e.rid]); }
  }

  lemma GottenReadsFinished(s: State, e: Event)
    requires e.GetSync? && Inv(s) && Finished(s.db) && ReadsFinished(s) && e.rid in Step(s, e).reqs
    ensures RequestFinished(s.db, Step(s, e).reqs[e.rid])
  {
    FinishedRows(s.db);
    if e.rid in s.reqs { assert RequestOk(s.db, s.reqs[e.rid]) && RequestFinished(s.db, s.reqs[e.rid]); }
  }

  /** The steps of an ingest after its commit, failed or not. */
  predicate AfterCommit(e: Event) {
    e.CommitIngest? || e.LookupCid? || e.LookupDigest? || e.LoadOriginal? || e.LogDuplicate?
  }

  lemma LateReadsFinished(s: State, e: Event)
    requires AfterCommit(e) && ReadsFinished(s) && e.rid in Step(s, e).reqs
    ensures RequestFinished(s.db, Step(s, e).reqs[e.rid])
  {
    if e.rid in s.reqs { assert RequestFinished(s.db, s.reqs[e.rid]); }
  }

  lemma OtherReadsFinished(s: State, e: Event)
    requires !e.SelectSync? && !e.LoadFiles? && !e.GetSync? && !AfterCommit(e)
    requires Inv(s) && Finished(s.db) && ReadsFinished(s) && e.rid in Step(s, e).reqs
    ensures RequestFinished(s.db, Step(s, e).reqs[e.rid])
  {
    if e.rid in s.reqs { assert RequestOk(s.db, s.reqs[e.rid]) && RequestFinished(s.db, s.reqs[e.rid]); }
  }

  /** What a request reads in a finished state is finished. */
  lemma OwnReadsFinished(s: State, e: Event)
    requires Inv(s) && Finished(s.db) && ReadsFinished(s) && e.rid in Step(s, e).reqs
    ensures RequestFinished(s.db, Step(s, e).reqs[e.rid])
  {
    match e
    case SelectSync(_, _) => SelectedReadsFinished(s, e);
    case LoadFiles(_, _) => LoadedReadsFinished(s, e);
    case GetSync(_) => GottenReadsFinished(s, e);
    case _ => if AfterCommit(e) { LateReadsFinished(s, e); } else { OtherReadsFinished(s, e); }
  }

  lemma StepKeepsReadsFinished(s: State, e: Event)
    requires Inv(s) && Finished(s.db) && ReadsFinished(s)
    ensures ReadsFinished(Step(s, e))
  {
    var s' := Step(s, e);
    StepKeepsInv(s, e);
    StepTouchesOwn(s, e);
    forall rid | rid in s'.reqs ensures RequestFinished(s'.db, s'.reqs[rid]) {
      if rid == e.rid { OwnReadsFinished(s, e); } else { assert RequestFinished(s.db, s.reqs[rid]); }
      var req := s'.reqs[rid];
      if IsRetry(req) && req.rph.RReady? && req.target in s'.db.syncs && s'.db.syncs[req.target].estado == Failed {
        FailedWasFailed(s, e, req.target);
      }
    }
  }

  /** Every state a run passes through, its last one included, has its finalizado_at columns right. */
  ghost predicate AlwaysFinished(es: seq<Event>) {
    forall i :: 0 <= i <= |es| ==> Finished(Exec(INIT, es[..i]).db)
  }

  ghost predicate NeverHarmful(es: seq<Event>) {
    forall i :: 0 <= i < |es| ==> !Harmful(Exec(INIT, es[..i]), es[i])
  }

  /** The state before the last event of a run, and after it. */
  lemma LastEvent(es: seq<Event>, i: nat)
    requires i < |es|
    ensures Exec(INIT, es[..i + 1]) == Step(Exec(INIT, es[..i]), es[i])
  {
    assert es[..i + 1] == es[..i] + [es[i]];
    ExecSnoc(INIT, es[..i], es[i]);
  }

  lemma {:induction false} ReadsStayFinished(es: seq<Event>, n: nat)
    requires n <= |es| && forall i :: 0 <= i < n ==> Finished(Exec(INIT, es[..i]).db)
    ensures ReadsFinished(Exec(INIT, es[..n]))
    decreases n
  {
    if n > 0 {
      ReadsStayFinished(es, n - 1);
      RunKeepsInv(es[..n - 1]);
      LastEvent(es, n - 1);
      StepKeepsReadsFinished(Exec(INIT, es[..n - 1]), es[n - 1]);
    }
  }

  lemma HarmlessStep(es: seq<Event>, n: nat)
    requires n < |es| && !Harmful(Exec(INIT, es[..n]), es[n])
    requires forall i :: 0 <= i <= n ==> Finished(Exec(INIT, es[..i]).db)
    ensures Finished(Exec(INIT, es[..n + 1]).db)
  {
    ReadsStayFinished(es, n);
    RunKeepsInv(es[..n]);
    LastEvent(es, n);
    StepKeepsFinished(Exec(INIT, es[..n]), es[n]);
  }

  lemma {:induction false} HarmlessStaysFinished(es: seq<Event>, n: nat)
    requires n <= |es| && NeverHarmful(es)
    ensures forall i :: 0 <= i <= n ==> Finished(Exec(INIT, es[..i]).db)
    decreases n
  {
    if n > 0 {
      HarmlessStaysFinished(es, n - 1);
      HarmlessStep(es, n - 1);
    }
  }

  /** What a commit of `ingest_batch` leaves of a row it read as `seen` and that is `now`: a column that already
      was what it should become when it was read is left as it is, the others are written. */
  ghost predicate ColumnsWritten(seen: Sync, now: Sync, after: Sync, clock: Clock) {
    && after.cid == now.cid
    && after.fecha == (if seen.fecha == clock.today then now.fecha else clock.today)
    && after.iniciado == (if seen.iniciado == clock.iniciado then now.iniciado else clock.iniciado)
    && after.estado == (if seen.estado == Completed then now.estado else Completed)
    && after.finalizado
       == (if seen.finalizado == Some(clock.finalizado) then now.finalizado else Some(clock.finalizado))
  }

  /** The row an ingest leaves when others changed it since it looked: completed in every run, with its own
      finalizado_at in every run that was right so far, and with today's fecha and its own iniciado_at unless
      it saw those in place and they have changed. */
  lemma StaleCommitColumns(es: seq<Event>, rid: Rid, newSync: Uuid, newFile: nat, clock: Clock)
    requires var s := Exec(INIT, es);
      && CommitEnabled(s, rid, newSync, newFile) && s.reqs[rid].ph.existing.Some?
      && !BatchClashes(s.db, s.reqs[rid].batch, s.reqs[rid].ph.existing)
    ensures var s := Exec(INIT, es); var s' := Step(s, CommitIngest(rid, newSync, newFile, clock));
      var read := s.reqs[rid].ph.existing.value;
      && read.id in s'.db.syncs && ColumnsWritten(read.row, s.db.syncs[read.id], s'.db.syncs[read.id], clock)
      && s'.db.syncs[read.id].cid == s.reqs[rid].batch.cid && s'.db.syncs[read.id].estado == Completed
      && (AlwaysFinished(es) ==> s'.db.syncs[read.id].finalizado == Some(clock.finalizado))
      && forall id :: id in s.db.syncs && id != read.id ==> id in s'.db.syncs && s'.db.syncs[id] == s.db.syncs[id]
  {
    var s := Exec(INIT, es);
    RunKeepsInv(es);
    assert RequestOk(s.db, s.reqs[rid]);
    if AlwaysFinished(es) {
      assert es[..|es|] == es;
      ReadsStayFinished(es, |es|);
      assert RequestFinished(s.db, s.reqs[rid]);
    }
  }

  /** Exactly when the finalizado_at columns stay right: in a run, every running sync has a null
      finalizado_at and every completed one a set one, all the time, if and only if no RETRY_JOB that read
      a failed sync commits after that sync has finished. (`Witnesses.StaleRetryLeavesFinished` is
      a run in which one does.) */
  lemma FinalizadoExactly(es: seq<Event>)
    ensures AlwaysFinished(es) <==> NeverHarmful(es)
  {
    if NeverHarmful(es) { HarmlessStaysFinished(es, |es|); }
    if AlwaysFinished(es) {
      forall i | 0 <= i < |es| ensures !Harmful(Exec(INIT, es[..i]), es[i]) {
        LastEvent(es, i);
        assert Finished(Exec(INIT, es[..i + 1]).db);
        RunKeepsInv(es[..i]);
        ReadsStayFinished(es, i);
        if Harmful(Exec(INIT, es[..i]), es[i]) { HarmBreaksFinished(Exec(INIT, es[..i]), es[i]); }
      }
    }
  }

  /** What a RETRY_JOB writes on a row that was completed since it looked. */
  lemma OvertakenRow(read: Read, now: Sync)
    requires RowFinished(read.row) && RowFinished(now)
    requires read.row.estado in {Running, Completed, Failed} && now.estado in {Running, Completed, Failed}
    requires now.estado == Failed ==> read.row.estado == Failed
    ensures var seen, after := read.row, RetriedSync(read, now);
      var overtaken := now.estado == Completed && seen.estado != Completed;
      && (after.estado == Running && after.finalizado.Some? <==> overtaken && seen.estado == Failed)
      && (overtaken && seen.estado == Running ==> after == now)
  {
  }

  lemma RetryEffect(s: State, e: Event)
    requires Inv(s) && Finished(s.db) && ReadsFinished(s) && RetryCommits(s, e)
    ensures s.reqs[e.rid].target in Step(s, e).db.syncs
    ensures var seen, now, after := RetrySeen(s, e), RetryNow(s, e), Step(s, e).db.syncs[s.reqs[e.rid].target];
      var overtaken := now.estado == Completed && seen.estado != Completed;
      && (after.estado == Running && after.finalizado == None <==> !overtaken)
      && (after.estado == Running && after.finalizado.Some? <==> overtaken && seen.estado == Failed)
      && (overtaken && seen.estado == Running ==> after == now)
  {
    RetryWrites(s, e);
    RetryTakesEffectExactly(s, e.rid, e.newAccion);
    assert RequestFinished(s.db, s.reqs[e.rid]);
    FinishedRows(s.db);
    OvertakenRow(s.reqs[e.rid].rph.read, RetryNow(s, e));
  }

  /** In a run that was right so far, a RETRY_JOB makes its sync running and unfinished exactly when
      no ingest completed the sync since it looked. One that was overtaken does harm exactly when the sync
      it saw was failed, and writes nothing when it was running. */
  lemma OvertakenRetryExactly(es: seq<Event>, e: Event)
    requires AlwaysFinished(es) && RetryCommits(Exec(INIT, es), e)
    ensures Exec(INIT, es).reqs[e.rid].target in Step(Exec(INIT, es), e).db.syncs
    ensures var s := Exec(INIT, es);
      var seen, now, after := RetrySeen(s, e), RetryNow(s, e), Step(s, e).db.syncs[s.reqs[e.rid].target];
      var overtaken := now.estado == Completed && seen.estado != Completed;
      && (after.estado == Running && after.finalizado == None <==> !overtaken)
      && (after.estado == Running && after.finalizado.Some? <==> overtaken && seen.estado == Failed)
      && (overtaken && seen.estado == Running ==> after == now)
  {
    var s := Exec(INIT, es);
    RunKeepsInv(es);
    assert es[..|es|] == es && Finished(Exec(INIT, es[..|es|]).db);
    ReadsStayFinished(es, |es|);
    RetryEffect(s, e);
  }

  // ----- who wrote which estado -----

  /** An error log of this correlation_id was started. */
  ghost predicate Logged(s: State, cid: Uuid) {
    exists r :: r in s.reqs && s.reqs[r].ErrorLog? && s.reqs[r].cid == cid
  }

  /** A RETRY_JOB of this sync was started. */
  ghost predicate Retried(s: State, id: Uuid) {
    exists r :: r in s.reqs && IsRetry(s.reqs[r]) && s.reqs[r].target == id
  }

  ghost predicate Explained(s: State, id: Uuid, cid: Uuid, estado: SyncEstado) {
    (estado == Failed ==> Logged(s, cid)) && (estado == Running ==> Retried(s, id))
  }

  /** The estado a request holds or has answered is explained. */
  ghost predicate PhaseExplained(s: State, ph: IngestPhase) {
    match ph
    case RowRead(read) => Explained(s, read.id, read.row.cid, read.row.estado)
    case OriginalRead(read, _) => Explained(s, read.id, read.row.cid, read.row.estado)
    case Replaying(read, _, _) => Explained(s, read.id, read.row.cid, read.row.estado)
    case Replayed(body, _) => Explained(s, body.syncId, body.cid, body.estado)
    case _ => true
  }

  ghost predicate SyncsExplained(s: State) {
    forall id :: id in s.db.syncs ==> Explained(s, id, s.db.syncs[id].cid, s.db.syncs[id].estado)
  }

  ghost predicate PhasesExplained(s: State) {
    forall rid :: IsIngest(s, rid) ==> PhaseExplained(s, s.reqs[rid].ph)
  }

  /** No step makes a request another request. */
  lemma StepKeepsKind(s: State, e: Event, rid: Rid)
    requires rid in s.reqs
    ensures rid in Step(s, e).reqs
    ensures var req, req' := s.reqs[rid], Step(s, e).reqs[rid];
      && (req.ErrorLog? ==> req'.ErrorLog? && req'.cid == req.cid)
      && (IsRetry(req) ==> IsRetry(req') && req'.target == req.target)
  {
  }

  lemma LoggedStays(s: State, e: Event, cid: Uuid)
    requires Logged(s, cid)
    ensures Logged(Step(s, e), cid)
  {
    var r :| r in s.reqs && s.reqs[r].ErrorLog? && s.reqs[r].cid == cid;
    StepKeepsKind(s, e, r);
  }

  lemma ExplainedStays(s: State, e: Event, id: Uuid, cid: Uuid, estado: SyncEstado)
    requires Explained(s, id, cid, estado)
    ensures Explained(Step(s, e), id, cid, estado)
  {
    if estado == Failed { LoggedStays(s, e, cid); }
    if estado == Running {
      var r :| r in s.reqs && IsRetry(s.reqs[r]) && s.reqs[r].target == id;
      StepKeepsKind(s, e, r);
    }
  }

  lemma StepKeepsSyncsExplained(s: State, e: Event)
    requires SyncsExplained(s)
    ensures SyncsExplained(Step(s, e))
  {
    var s' := Step(s, e);
    forall id | id in s'.db.syncs ensures Explained(s', id, s'.db.syncs[id].cid, s'.db.syncs[id].estado) {
      StatusAfterStep(s, e, id);
      assert Explained(s, id, s'.db.syncs[id].cid, s'.db.syncs[id].estado);
      ExplainedStays(s, e, id, s'.db.syncs[id].cid, s'.db.syncs[id].estado);
    }
  }

  /** What a request holds after its own step it read from the tables or held before. */
  lemma OwnPhaseExplained(s: State, e: Event)
    requires SyncsExplained(s) && PhasesExplained(s) && IsIngest(Step(s, e), e.rid)
    ensures PhaseExplained(s, Step(s, e).reqs[e.rid].ph)
  {
    if IsIngest(s, e.rid) { assert PhaseExplained(s, s.reqs[e.rid].ph); }
  }

  lemma PhaseStaysExplained(s: State, e: Event, ph: IngestPhase)
    requires PhaseExplained(s, ph)
    ensures PhaseExplained(Step(s, e), ph)
  {
    match ph
    case RowRead(read) => ExplainedStays(s, e, read.id, read.row.cid, read.row.estado);
    case OriginalRead(read, _) => ExplainedStays(s, e, read.id, read.row.cid, read.row.estado);
    case Replaying(read, _, _) => ExplainedStays(s, e, read.id, read.row.cid, read.row.estado);
    case Replayed(body, _) => ExplainedStays(s, e, body.syncId, body.cid, body.estado);
    case _ =>
  }

  lemma StepKeepsPhasesExplained(s: State, e: Event)
    requires SyncsExplained(s) && PhasesExplained(s)
    ensures PhasesExplained(Step(s, e))
  {
    var s' := Step(s, e);
    StepTouchesOwn(s, e);
    forall rid | IsIngest(s', rid) ensures PhaseExplained(s', s'.reqs[rid].ph) {
      if rid == e.rid { OwnPhaseExplained(s, e); } else { assert IsIngest(s, rid); }
      PhaseStaysExplained(s, e, s'.reqs[rid].ph);
    }
  }

  lemma {:induction false} ExplainedRun(s: State, es: seq<Event>)
    requires SyncsExplained(s) && PhasesExplained(s)
    ensures SyncsExplained(Exec(s, es)) && PhasesExplained(Exec(s, es))
    decreases |es|
  {
    if es != [] {
      StepKeepsSyncsExplained(s, es[0]);
      StepKeepsPhasesExplained(s, es[0]);
      ExplainedRun(Step(s, es[0]), es[1..]);
    }
  }

  /** In every run a sync is failed only after an error log of its correlation_id and running only after a
      RETRY_JOB of it; the same goes for the rows the ingests hold and the bodies they answer. */
  lemma EstadoNeedsWriter(es: seq<Event>)
    ensures SyncsExplained(Exec(INIT, es)) && PhasesExplained(Exec(INIT, es))
  {
    ExplainedRun(INIT, es);
  }

  // ----- files -----

  ghost predicate AllAccepted(db: Db) {
    forall k :: k in db.archivos ==> db.archivos[k].estado == Accepted
  }

  lemma StepKeepsAccepted(s: State, e: Event)
    requires AllAccepted(s.db)
    ensures AllAccepted(Step(s, e).db)
  {
    match e
    case CommitIngest(_, _, _, _) =>
    case CommitRemediation(_, _) =>
    case _ => assert Step(s, e).db.archivos == s.db.archivos;
  }

  lemma {:induction false} AcceptedRun(s: State, es: seq<Event>)
    requires AllAccepted(s.db)
    ensures AllAccepted(Exec(s, es).db)
    decreases |es|
  {
    if es != [] {
      StepKeepsAccepted(s, es[0]);
      AcceptedRun(Step(s, es[0]), es[1..]);
    }
  }

  /** No service rejects a file: in every run all files are accepted, so a FORCE_SKIP_VALIDATION finds
      nothing to accept and changes no file, whatever set of files it has loaded. */
  lemma NothingIsRejected(es: seq<Event>, id: Uuid, files: set<nat>)
    ensures var db := Exec(INIT, es).db;
      AllAccepted(db) && RejectedFiles(db.archivos, id) == {} && AcceptFiles(db.archivos, files) == db.archivos
  {
    AcceptedRun(INIT, es);
  }
}
