/** What the ingest protocol promises over whole runs: every theorem quantifies over an
    arbitrary sequence of events from the empty database, that is over any number of
    ingests, error loggers and remediations in any interleaving, with requests dying
    at any await. */
module Idempotency {
  import opened Tables
  import opened Protocol
  import opened Invariants
  import opened LifecycleRuns

  /** Each correlation_id is always sent with the same checksum. */
  ghost predicate OneDigestPerCid(s: State) {
    forall r, q :: IsIngest(s, r) && IsIngest(s, q) && s.reqs[r].batch.cid == s.reqs[q].batch.cid
      ==> s.reqs[r].batch.digest == s.reqs[q].batch.digest
  }

  /** A set onto which the values of a map fall is no larger than the map's domain. */
  lemma {:induction false} SurjectionSize(m: map<nat, nat>, target: set<nat>)
    requires forall k :: k in target ==> exists r :: r in m && m[r] == k
    ensures |target| <= |m.Keys|
    decreases target
  {
    if target != {} {
      var k :| k in target;
      var r :| r in m && m[r] == k;
      var rest := map q | q in m && q != r :: m[q];
      assert rest.Keys == m.Keys - {r};
      forall j | j in target - {k} ensures exists q :: q in rest && rest[q] == j {
        var q :| q in m && m[q] == j;
        assert q in rest && rest[q] == j;
      }
      SurjectionSize(rest, target - {k});
    }
  }

  /** Two requests are never answered 201 for the same stored file. */
  lemma CreatorIsUnique(s: State, k: nat, r: Rid, q: Rid)
    requires Inv(s) && CreatedBy(s, k, r) && CreatedBy(s, k, q)
    ensures r == q
  {
    assert |s.db.archivos| == |s.db.archivos.Keys|;
    if r != q {
      var others := map w | w in Winners(s) && w != r :: s.reqs[w].ph.stored;
      assert others.Keys == Winners(s) - {r};
      forall j | j in s.db.archivos.Keys ensures exists w :: w in others && others[w] == j {
        var w :| CreatedBy(s, j, w);
        if w == r {
          assert q in others && others[q] == j;
        } else {
          assert w in others && others[w] == j;
        }
      }
      SurjectionSize(others, s.db.archivos.Keys);
    }
  }

  lemma SameDigestSameWinner(s: State, r: Rid, q: Rid)
    requires Inv(s) && IsCreated(s, r) && IsCreated(s, q)
    requires s.reqs[r].batch.digest == s.reqs[q].batch.digest
    ensures r == q
  {
    assert RequestOk(s.db, s.reqs[r]) && RequestOk(s.db, s.reqs[q]);
    CreatorIsUnique(s, s.reqs[r].ph.stored, r, q);
  }

  /** In every run the 201 answers are as many as the archivo rows, each row was announced by
      exactly one of them, and no checksum is answered 201 twice. */
  lemma OneCreationPerChecksum(es: seq<Event>)
    ensures var s := Exec(INIT, es);
      && |Winners(s)| == |s.db.archivos|
      && (forall k :: k in s.db.archivos ==>
            exists r :: CreatedBy(s, k, r) && forall q :: CreatedBy(s, k, q) ==> q == r)
      && (forall r, q :: IsCreated(s, r) && IsCreated(s, q) && s.reqs[r].batch.digest == s.reqs[q].batch.digest
            ==> r == q)
  {
    var s := Exec(INIT, es);
    RunKeepsInv(es);
    forall k | k in s.db.archivos
      ensures exists r :: CreatedBy(s, k, r) && forall q :: CreatedBy(s, k, q) ==> q == r
    {
      var r :| CreatedBy(s, k, r);
      forall q | CreatedBy(s, k, q) ensures q == r { CreatorIsUnique(s, k, r, q); }
    }
    forall r, q | IsCreated(s, r) && IsCreated(s, q) && s.reqs[r].batch.digest == s.reqs[q].batch.digest
      ensures r == q
    {
      SameDigestSameWinner(s, r, q);
    }
  }

  /** The request that stored a file carried the correlation_id of its sync and its checksum. */
  lemma CreatorCarries(s: State, k: nat, r: Rid)
    requires Inv(s) && CreatedBy(s, k, r)
    ensures k in s.db.archivos && s.db.archivos[k].syncId in s.db.syncs
    ensures s.reqs[r].batch.cid == s.db.syncs[s.db.archivos[k].syncId].cid
    ensures s.reqs[r].batch.digest == s.db.archivos[k].digest
  {
    assert RequestOk(s.db, s.reqs[r]);
  }

  /** When a correlation_id never changes its checksum, a sync owns at most one file. */
  lemma OneFilePerSync(s: State, j: nat, k: nat)
    requires Inv(s) && OneDigestPerCid(s)
    requires j in s.db.archivos && k in s.db.archivos && s.db.archivos[j].syncId == s.db.archivos[k].syncId
    ensures j == k
  {
    var r :| CreatedBy(s, j, r);
    var q :| CreatedBy(s, k, q);
    CreatorCarries(s, j, r);
    CreatorCarries(s, k, q);
    assert IsIngest(s, r) && IsIngest(s, q);
  }

  ghost predicate OneFileEach(db: Db) {
    forall j, k :: j in db.archivos && k in db.archivos && db.archivos[j].syncId == db.archivos[k].syncId ==> j == k
  }

  /** Idempotency by correlation_id: with one checksum per correlation_id there is at most one
      archivo per sync and at most one 201 per correlation_id. (`Witnesses.TwoFilesOneSync`
      shows that the hypothesis is needed.) */
  lemma OneCreationPerCorrelationId(es: seq<Event>)
    requires OneDigestPerCid(Exec(INIT, es))
    ensures var s := Exec(INIT, es);
      && OneFileEach(s.db)
      && (forall r, q :: IsCreated(s, r) && IsCreated(s, q) && s.reqs[r].batch.cid == s.reqs[q].batch.cid ==> r == q)
  {
    var s := Exec(INIT, es);
    RunKeepsInv(es);
    forall j, k | j in s.db.archivos && k in s.db.archivos && s.db.archivos[j].syncId == s.db.archivos[k].syncId
      ensures j == k
    {
      OneFilePerSync(s, j, k);
    }
    forall r, q | IsCreated(s, r) && IsCreated(s, q) && s.reqs[r].batch.cid == s.reqs[q].batch.cid
      ensures r == q
    {
      SameDigestSameWinner(s, r, q);
    }
  }

  /** When a commit gives a sync a second file, in any reachable state: exactly when it updates a
      sync it saw without files that has got one since, with a checksum stored nowhere. */
  lemma SecondFileExactly(es: seq<Event>, rid: Rid, newSync: Uuid, newFile: nat, clock: Clock)
    requires CommitEnabled(Exec(INIT, es), rid, newSync, newFile)
    ensures var s := Exec(INIT, es);
      var s' := Step(s, CommitIngest(rid, newSync, newFile, clock));
      var b, existing := s.reqs[rid].batch, s.reqs[rid].ph.existing;
      (exists k :: k in s.db.archivos && newFile in s'.db.archivos
                   && s'.db.archivos[newFile].syncId == s.db.archivos[k].syncId) <==>
        existing.Some? && HasFile(s.db, existing.value.id) && !HasDigest(s.db, b.digest)
  {
    var s := Exec(INIT, es);
    var s' := Step(s, CommitIngest(rid, newSync, newFile, clock));
    var b, existing := s.reqs[rid].batch, s.reqs[rid].ph.existing;
    RunKeepsInv(es);
    if existing.Some? && HasFile(s.db, existing.value.id) && !HasDigest(s.db, b.digest) {
      var k :| k in s.db.archivos && s.db.archivos[k].syncId == existing.value.id;
      assert s'.db.archivos[newFile].syncId == s.db.archivos[k].syncId;
    }
  }

  /** `e` commits a second file to a sync. */
  predicate StoresSecond(s: State, e: Event) {
    && e.CommitIngest? && CommitEnabled(s, e.rid, e.newSync, e.newFile)
    && s.reqs[e.rid].ph.existing.Some? && HasFile(s.db, s.reqs[e.rid].ph.existing.value.id)
    && !HasDigest(s.db, s.reqs[e.rid].batch.digest)
  }

  /** Every file stays with its sync, and none is new. */
  ghost predicate SameOwners(db: Db, db': Db) {
    && db'.archivos.Keys == db.archivos.Keys
    && forall k :: k in db.archivos ==> db'.archivos[k].syncId == db.archivos[k].syncId
  }

  /** `e` commits a file. */
  predicate StoresFile(s: State, e: Event) {
    && e.CommitIngest? && CommitEnabled(s, e.rid, e.newSync, e.newFile)
    && !BatchClashes(s.db, s.reqs[e.rid].batch, s.reqs[e.rid].ph.existing)
  }

  lemma CommitAddsFile(s: State, e: Event)
    requires StoresFile(s, e)
    ensures var b, id := s.reqs[e.rid].batch, TargetId(s.reqs[e.rid].ph.existing, e.newSync);
      Step(s, e).db.archivos == s.db.archivos[e.newFile := FileOf(b, id)]
  {
  }

  lemma RemediationKeepsOwners(s: State, e: Event)
    requires e.CommitRemediation?
    ensures SameOwners(s.db, Step(s, e).db)
  {
  }

  lemma OthersKeepOwners(s: State, e: Event)
    requires !e.CommitRemediation? && !StoresFile(s, e)
    ensures Step(s, e).db.archivos == s.db.archivos
  {
  }

  lemma StepKeepsOneFileEach(s: State, e: Event)
    requires Inv(s) && OneFileEach(s.db) && !StoresSecond(s, e)
    ensures OneFileEach(Step(s, e).db)
  {
    if StoresFile(s, e) { CommitAddsFile(s, e); }
    else if e.CommitRemediation? { RemediationKeepsOwners(s, e); }
    else { OthersKeepOwners(s, e); }
  }

  lemma SecondFileBreaks(s: State, e: Event)
    requires Inv(s) && StoresSecond(s, e)
    ensures !OneFileEach(Step(s, e).db)
  {
    var s' := Step(s, e);
    var id := s.reqs[e.rid].ph.existing.value.id;
    var k :| k in s.db.archivos && s.db.archivos[k].syncId == id;
    CommitAddsFile(s, e);
    assert s'.db.archivos[k].syncId == s'.db.archivos[e.newFile].syncId && k != e.newFile;
  }

  ghost predicate AlwaysOneFile(es: seq<Event>) {
    forall i :: 0 <= i <= |es| ==> OneFileEach(Exec(INIT, es[..i]).db)
  }

  ghost predicate NeverStoresSecond(es: seq<Event>) {
    forall i :: 0 <= i < |es| ==> !StoresSecond(Exec(INIT, es[..i]), es[i])
  }

  lemma OneFileStep(es: seq<Event>, n: nat)
    requires n < |es| && !StoresSecond(Exec(INIT, es[..n]), es[n]) && OneFileEach(Exec(INIT, es[..n]).db)
    ensures OneFileEach(Exec(INIT, es[..n + 1]).db)
  {
    RunKeepsInv(es[..n]);
    LastEvent(es, n);
    StepKeepsOneFileEach(Exec(INIT, es[..n]), es[n]);
  }

  lemma {:induction false} OneFileStays(es: seq<Event>, n: nat)
    requires n <= |es| && NeverStoresSecond(es)
    ensures forall i :: 0 <= i <= n ==> OneFileEach(Exec(INIT, es[..i]).db)
    decreases n
  {
    if n > 0 {
      OneFileStays(es, n - 1);
      OneFileStep(es, n - 1);
    }
  }

  /** Exactly when syncs keep to one file, whatever checksums are sent: in a run, every sync owns at most one
      file all the time if and only if no commit updates a sync, seen without files, that has got one since,
      with a checksum stored nowhere. */
  lemma OneFileExactly(es: seq<Event>)
    ensures AlwaysOneFile(es) <==> NeverStoresSecond(es)
  {
    if NeverStoresSecond(es) { OneFileStays(es, |es|); }
    if AlwaysOneFile(es) {
      forall i | 0 <= i < |es| ensures !StoresSecond(Exec(INIT, es[..i]), es[i]) {
        LastEvent(es, i);
        RunKeepsInv(es[..i]);
        assert OneFileEach(Exec(INIT, es[..i + 1]).db);
        if StoresSecond(Exec(INIT, es[..i]), es[i]) { SecondFileBreaks(Exec(INIT, es[..i]), es[i]); }
      }
    }
  }

  // ----- after the 201 -----

  ghost predicate FileHasCid(db: Db, k: nat, cid: Uuid)
    requires k in db.archivos
  {
    db.archivos[k].syncId in db.syncs && db.syncs[db.archivos[k].syncId].cid == cid
  }

  /** Some file belongs to a sync of `cid`. */
  ghost predicate CidHasFile(db: Db, cid: Uuid) {
    exists k :: k in db.archivos && FileHasCid(db, k, cid)
  }

  /** If `rid` is an ingest of `cid`, it has not been pre-checked, is on its way to a 200, or died. */
  predicate OnReplayPath(s: State, rid: Rid, cid: Uuid) {
    IsIngest(s, rid) && s.reqs[rid].batch.cid == cid ==>
      s.reqs[rid].ph.Start? || s.reqs[rid].ph.RowRead? || s.reqs[rid].ph.Replaying?
      || s.reqs[rid].ph.Replayed? || s.reqs[rid].ph.Aborted?
  }

  lemma CidHasFileGrows(db: Db, db': Db, cid: Uuid)
    requires Extends(db, db') && CidHasFile(db, cid)
    ensures CidHasFile(db', cid)
  {
    var k :| k in db.archivos && FileHasCid(db, k, cid);
    assert k in db'.archivos && FileHasCid(db', k, cid);
  }

  /** With a file under its correlation_id, every answer the pre-check can get leads to the replay. */
  lemma PreCheckHits(s: State, id: Uuid, cid: Uuid)
    requires Inv(s) && CidHasFile(s.db, cid) && id in s.db.syncs && s.db.syncs[id].cid == cid
    ensures HasCid(s.db, cid) && HasFile(s.db, id)
  {
    var k :| k in s.db.archivos && FileHasCid(s.db, k, cid);
    assert s.db.archivos[k].syncId == id;
  }

  lemma OthersStayOnReplayPath(s: State, e: Event, rid: Rid, cid: Uuid)
    requires e.rid != rid && OnReplayPath(s, rid, cid)
    ensures OnReplayPath(Step(s, e), rid, cid)
  {
  }

  lemma StartLeadsToReplay(s: State, e: Event, rid: Rid, cid: Uuid)
    requires e.rid == rid && IsIngest(s, rid) && s.reqs[rid].batch.cid == cid && HasCid(s.db, cid)
    requires s.reqs[rid].ph.Start? || s.reqs[rid].ph.Replayed? || s.reqs[rid].ph.Aborted?
    ensures OnReplayPath(Step(s, e), rid, cid)
  {
  }

  lemma RowLeadsToReplay(s: State, e: Event, rid: Rid, cid: Uuid)
    requires e.rid == rid && IsIngest(s, rid) && s.reqs[rid].batch.cid == cid
    requires s.reqs[rid].ph.RowRead? && HasFile(s.db, s.reqs[rid].ph.read.id)
    ensures OnReplayPath(Step(s, e), rid, cid)
  {
  }

  lemma ReplayLeadsToReplayed(s: State, e: Event, rid: Rid, cid: Uuid)
    requires e.rid == rid && IsIngest(s, rid) && s.reqs[rid].batch.cid == cid
    requires s.reqs[rid].ph.Replaying? && HasCid(s.db, s.reqs[rid].ph.source.row.cid)
    ensures OnReplayPath(Step(s, e), rid, cid)
  {
  }

  lemma ArrivesOnReplayPath(s: State, e: Event, rid: Rid, cid: Uuid)
    requires e.rid == rid && (rid in s.reqs ==> !s.reqs[rid].Ingest? || s.reqs[rid].batch.cid != cid)
    ensures OnReplayPath(Step(s, e), rid, cid)
  {
  }

  /** What the pre-check finds out about a request of a filed correlation_id. */
  lemma ReplayPathFacts(s: State, rid: Rid, cid: Uuid)
    requires Inv(s) && CidHasFile(s.db, cid) && IsIngest(s, rid) && s.reqs[rid].batch.cid == cid
    ensures HasCid(s.db, cid)
    ensures s.reqs[rid].ph.RowRead? ==> HasFile(s.db, s.reqs[rid].ph.read.id)
    ensures s.reqs[rid].ph.Replaying? ==> HasCid(s.db, s.reqs[rid].ph.source.row.cid)
  {
    assert RequestOk(s.db, s.reqs[rid]);
    var k :| k in s.db.archivos && FileHasCid(s.db, k, cid);
    PreCheckHits(s, s.db.archivos[k].syncId, cid);
    if s.reqs[rid].ph.RowRead? { PreCheckHits(s, s.reqs[rid].ph.read.id, cid); }
    if s.reqs[rid].ph.Replaying? { assert HasCid(s.db, s.reqs[rid].ph.source.row.cid); }
  }

  lemma StepStaysOnReplayPath(s: State, e: Event, rid: Rid, cid: Uuid)
    requires Inv(s) && CidHasFile(s.db, cid) && OnReplayPath(s, rid, cid)
    ensures OnReplayPath(Step(s, e), rid, cid)
  {
    if e.rid != rid {
      OthersStayOnReplayPath(s, e, rid, cid);
    } else if IsIngest(s, rid) && s.reqs[rid].batch.cid == cid {
      ReplayPathFacts(s, rid, cid);
      match s.reqs[rid].ph
      case RowRead(_) => RowLeadsToReplay(s, e, rid, cid);
      case Replaying(_, _, _) => ReplayLeadsToReplayed(s, e, rid, cid);
      case _ => StartLeadsToReplay(s, e, rid, cid);
    } else {
      ArrivesOnReplayPath(s, e, rid, cid);
    }
  }

  lemma {:induction false} RunStaysOnReplayPath(s: State, es: seq<Event>, rid: Rid, cid: Uuid)
    requires Inv(s) && CidHasFile(s.db, cid) && OnReplayPath(s, rid, cid)
    ensures OnReplayPath(Exec(s, es), rid, cid)
    decreases |es|
  {
    if es != [] {
      StepKeepsInv(s, es[0]);
      CidHasFileGrows(s.db, Step(s, es[0]).db, cid);
      StepStaysOnReplayPath(s, es[0], rid, cid);
      RunStaysOnReplayPath(Step(s, es[0]), es[1..], rid, cid);
    }
  }

  /** Once a correlation_id was answered 201, a request with it that has not done its pre-check is answered
      200 or dies at an await, in every continuation: no second 201, no conflict, no 422, whatever
      checksum it carries and whatever the other requests do. */
  lemma LateRequestsOnlyReplay(es: seq<Event>, more: seq<Event>, winner: Rid, rid: Rid)
    requires IsCreated(Exec(INIT, es), winner)
    requires IsIngest(Exec(INIT, es), rid) ==> Exec(INIT, es).reqs[rid].ph.Start?
    ensures var s := Exec(INIT, es + more); var cid := Exec(INIT, es).reqs[winner].batch.cid;
      IsIngest(s, rid) && s.reqs[rid].batch.cid == cid ==>
        && OnReplayPath(s, rid, cid)
        && (Final(s.reqs[rid]) ==> s.reqs[rid].ph.Replayed? || s.reqs[rid].ph.Aborted?)
  {
    var s := Exec(INIT, es);
    RunKeepsInv(es);
    assert CreatedBy(s, s.reqs[winner].ph.stored, winner);
    CreatorCarries(s, s.reqs[winner].ph.stored, winner);
    assert FileHasCid(s.db, s.reqs[winner].ph.stored, s.reqs[winner].batch.cid);
    ExecAppend(INIT, es, more);
    RunStaysOnReplayPath(s, more, rid, s.reqs[winner].batch.cid);
  }

  // ----- accounting of duplicates -----

  /** In every run, for every correlation_id, the ERR_DUPLICATE_BATCH rows are as many as the
      200 answers whose body carries it, and every such row hangs on an existing sync. */
  lemma DuplicateLogAccounting(es: seq<Event>, cid: Uuid)
    ensures var s := Exec(INIT, es);
      |DuplicateLogs(s.db, cid)| == |Replays(s, cid)| && (DuplicateLogs(s.db, cid) != {} ==> HasCid(s.db, cid))
  {
    RunKeepsInv(es);
    var s := Exec(INIT, es);
    if DuplicateLogs(s.db, cid) != {} {
      var k :| k in DuplicateLogs(s.db, cid);
      assert HasCid(s.db, s.db.logs[k].cid);
    }
  }

  /** The step that answers 200 always succeeds once it is due, and stores neither a sync nor
      an archivo: its insert never violates the foreign key. */
  lemma DuplicateLogNeverFails(es: seq<Event>, rid: Rid, newLog: nat)
    requires var s := Exec(INIT, es);
      IsIngest(s, rid) && s.reqs[rid].ph.Replaying? && newLog !in s.db.logs
    ensures var s := Exec(INIT, es); var s' := Step(s, LogDuplicate(rid, newLog));
      && s'.reqs[rid].ph == Replayed(ResponseOf(s.reqs[rid].ph.source, s.reqs[rid].ph.file), s.reqs[rid].ph.key)
      && s'.db.syncs == s.db.syncs && s'.db.archivos == s.db.archivos && s'.db.acciones == s.db.acciones
      && s'.db.logs == s.db.logs[newLog := LogRow(s'.reqs[rid].ph.body.cid, DuplicateBatch)]
  {
    var s := Exec(INIT, es);
    RunKeepsInv(es);
    assert RequestOk(s.db, s.reqs[rid]);
    assert HasCid(s.db, s.reqs[rid].ph.source.row.cid);
  }
}
