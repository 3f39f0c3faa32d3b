/** What a repeated request is answered: how a 200 relates to the 201 of the file it replays, to the 201
    of the same batch, and to the request it answers. */
module Repeats {
  import opened Basics
  import opened Tables
  import opened Protocol
  import opened Invariants
  import opened LifecycleRuns
  import opened Idempotency

  /** `rid` was answered 200 and `w` is the request that was answered 201 for the same file. */
  ghost predicate ReplayOf(s: State, rid: Rid, w: Rid) {
    IsIngest(s, rid) && s.reqs[rid].ph.Replayed? && CreatedBy(s, s.reqs[rid].ph.replayOf, w)
  }

  /** The bodies of the 200 and of the 201 agree in every field except estado. */
  ghost predicate SameButEstado(s: State, rid: Rid, w: Rid)
    requires ReplayOf(s, rid, w)
  {
    s.reqs[rid].ph.body == s.reqs[w].ph.body.(estado := s.reqs[rid].ph.body.estado)
  }

  /** Two bodies that describe the same stored file agree in every field except estado. */
  lemma SameFileSameBody(db: Db, body: Response, other: Response, k: nat)
    requires Describes(db, body, k) && Describes(db, other, k)
    ensures body == other.(estado := body.estado)
  {
  }

  lemma ReplayEqualsCreation(s: State, rid: Rid)
    requires Inv(s) && IsIngest(s, rid) && s.reqs[rid].ph.Replayed?
    ensures exists w :: ReplayOf(s, rid, w) && SameButEstado(s, rid, w)
  {
    assert RequestOk(s.db, s.reqs[rid]);
    var k := s.reqs[rid].ph.replayOf;
    var w :| CreatedBy(s, k, w);
    assert RequestOk(s.db, s.reqs[w]);
    SameFileSameBody(s.db, s.reqs[rid].ph.body, s.reqs[w].ph.body, k);
    assert ReplayOf(s, rid, w);
  }

  /** In every run each 200 body equals, in every field except estado, the 201 body returned for
      the file it replays. */
  lemma ReplayFidelity(es: seq<Event>)
    ensures var s := Exec(INIT, es);
      forall rid :: IsIngest(s, rid) && s.reqs[rid].ph.Replayed? ==>
        exists w :: ReplayOf(s, rid, w) && SameButEstado(s, rid, w)
  {
    var s := Exec(INIT, es);
    RunKeepsInv(es);
    forall rid | IsIngest(s, rid) && s.reqs[rid].ph.Replayed?
      ensures exists w :: ReplayOf(s, rid, w) && SameButEstado(s, rid, w)
    {
      ReplayEqualsCreation(s, rid);
    }
  }

  lemma ReplayedDigest(s: State, rid: Rid)
    requires Inv(s) && OneDigestPerCid(s) && IsIngest(s, rid) && s.reqs[rid].ph.Replayed?
    ensures s.reqs[rid].ph.body.digest == s.reqs[rid].batch.digest
  {
    var b, body, k := s.reqs[rid].batch, s.reqs[rid].ph.body, s.reqs[rid].ph.replayOf;
    assert RequestOk(s.db, s.reqs[rid]);
    if body.cid == b.cid {
      var w :| CreatedBy(s, k, w);
      CreatorCarries(s, k, w);
      assert IsIngest(s, w);
    } else {
      var j :| j in s.db.archivos && s.db.archivos[j].syncId == body.syncId && s.db.archivos[j].digest == b.digest;
      OneFilePerSync(s, j, k);
    }
  }

  /** With one checksum per correlation_id every 200 body carries the checksum of the request
      it answers. */
  lemma ReplayCarriesRequestChecksum(es: seq<Event>)
    requires OneDigestPerCid(Exec(INIT, es))
    ensures var s := Exec(INIT, es);
      forall rid :: IsIngest(s, rid) && s.reqs[rid].ph.Replayed? ==>
        s.reqs[rid].ph.body.digest == s.reqs[rid].batch.digest
  {
    var s := Exec(INIT, es);
    RunKeepsInv(es);
    forall rid | IsIngest(s, rid) && s.reqs[rid].ph.Replayed?
      ensures s.reqs[rid].ph.body.digest == s.reqs[rid].batch.digest
    {
      ReplayedDigest(s, rid);
    }
  }

  /** In every run a 200 body is identical to the 201 body of the file it replays unless its sync was
      retried or its correlation_id logged an error. */
  lemma ReplayIsIdentical(es: seq<Event>)
    ensures var s := Exec(INIT, es);
      forall rid :: IsIngest(s, rid) && s.reqs[rid].ph.Replayed?
                    && !Logged(s, s.reqs[rid].ph.body.cid) && !Retried(s, s.reqs[rid].ph.body.syncId) ==>
        exists w :: ReplayOf(s, rid, w) && s.reqs[rid].ph.body == s.reqs[w].ph.body
  {
    var s := Exec(INIT, es);
    RunKeepsInv(es);
    EstadoNeedsWriter(es);
    forall rid | IsIngest(s, rid) && s.reqs[rid].ph.Replayed?
                 && !Logged(s, s.reqs[rid].ph.body.cid) && !Retried(s, s.reqs[rid].ph.body.syncId)
      ensures exists w :: ReplayOf(s, rid, w) && s.reqs[rid].ph.body == s.reqs[w].ph.body
    {
      ReplayEqualsCreation(s, rid);
      var w :| ReplayOf(s, rid, w) && SameButEstado(s, rid, w);
      assert RequestOk(s.db, s.reqs[w]) && RequestOk(s.db, s.reqs[rid]);
      assert PhaseExplained(s, s.reqs[rid].ph);
    }
  }

  // ----- when a replay is identical -----

  /** `e` loads the first file of the row `read` that `rid` holds, after the pre-check or after a conflict. */
  predicate LoadsFile(s: State, e: Event, rid: Rid, read: Read, k: nat) {
    && IsIngest(s, rid) && FirstFile(s.db, read.id, Some(k))
    && ((s.reqs[rid].ph == RowRead(read) && e == LoadFiles(rid, Some(k)))
        || (s.reqs[rid].ph.OriginalRead? && s.reqs[rid].ph.original == read && e == LoadOriginal(rid, Some(k))))
  }

  /** `rid` replays the row `read` and the file `k` as `a`, or has died. */
  predicate ReplaysRead(s: State, rid: Rid, read: Read, k: nat, a: Archivo) {
    IsIngest(s, rid) && match s.reqs[rid].ph
      case Replaying(source, key, file) => source == read && key == k && file == a
      case Replayed(body, key) => body == ResponseOf(read, a) && key == k
      case Reraised => true
      case Aborted => true
      case _ => false
  }

  lemma LoadedReplays(s: State, e: Event, rid: Rid, read: Read, k: nat)
    requires LoadsFile(s, e, rid, read, k)
    ensures ReplaysRead(Step(s, e), rid, read, k, s.db.archivos[k]) && Step(s, e).db == s.db
  {
  }

  lemma OwnStepReplays(s: State, e: Event, rid: Rid, read: Read, k: nat, a: Archivo)
    requires ReplaysRead(s, rid, read, k, a) && e.rid == rid
    ensures ReplaysRead(Step(s, e), rid, read, k, a)
  {
    if Final(s.reqs[rid]) { FinishedStays(s, e); }
  }

  lemma {:induction false} RunReplays(s: State, es: seq<Event>, rid: Rid, read: Read, k: nat, a: Archivo)
    requires ReplaysRead(s, rid, read, k, a)
    ensures ReplaysRead(Exec(s, es), rid, read, k, a)
    decreases |es|
  {
    if es != [] {
      if es[0].rid == rid { OwnStepReplays(s, es[0], rid, read, k, a); } else { StepTouchesOwn(s, es[0]); }
      RunReplays(Step(s, es[0]), es[1..], rid, read, k, a);
    }
  }

  /** What a 200 says, from the step that loaded its file on: the row and the file as they were loaded. */
  lemma AnswersLoaded(es: seq<Event>, e: Event, more: seq<Event>, rid: Rid, read: Read, k: nat)
    requires LoadsFile(Exec(INIT, es), e, rid, read, k)
    requires var s := Exec(INIT, es + [e] + more); IsIngest(s, rid) && s.reqs[rid].ph.Replayed?
    ensures Exec(INIT, es + [e] + more).reqs[rid].ph == Replayed(ResponseOf(read, Exec(INIT, es).db.archivos[k]), k)
  {
    ExecSnoc(INIT, es, e);
    ExecAppend(INIT, es + [e], more);
    LoadedReplays(Exec(INIT, es), e, rid, read, k);
    RunReplays(Exec(INIT, es + [e]), more, rid, read, k, Exec(INIT, es).db.archivos[k]);
  }

  /** The 201 of a request and a 200 for the same batch agree exactly when the 200 shows the sync as completed
      and carries the checksum of the batch. */
  lemma SameBatchSameBody(s: State, rid: Rid, w: Rid)
    requires Inv(s) && IsIngest(s, rid) && s.reqs[rid].ph.Replayed?
    requires IsCreated(s, w) && s.reqs[w].batch == s.reqs[rid].batch
    ensures var body, b := s.reqs[rid].ph.body, s.reqs[rid].batch;
      body == s.reqs[w].ph.body <==> body.estado == Completed && body.digest == b.digest
  {
    assert RequestOk(s.db, s.reqs[w]);
    ReplayEqualsCreation(s, rid);
    var v :| ReplayOf(s, rid, v) && SameButEstado(s, rid, v);
    assert RequestOk(s.db, s.reqs[v]);
    if s.reqs[rid].ph.body.digest == s.reqs[rid].batch.digest { SameDigestSameWinner(s, v, w); }
  }

  /** When the 200 is identical to the 201, for every interleaving and on both duplicate paths. To the 201
      of the file it replays: exactly when the row that the request read showed the sync as completed. To
      the 201 that the same batch was answered: exactly when also the file loaded carries its checksum.
      (`Witnesses.ReplayShowsStaleFailed` is a run in which the row showed it as failed, and a RETRY_JOB makes
      it running; `Witnesses.RepeatGetsAnotherFile` is one in which another file was loaded.) */
  lemma ReplayIdenticalExactly(es: seq<Event>, e: Event, more: seq<Event>, rid: Rid, read: Read, k: nat)
    requires LoadsFile(Exec(INIT, es), e, rid, read, k)
    requires var s := Exec(INIT, es + [e] + more); IsIngest(s, rid) && s.reqs[rid].ph.Replayed?
    ensures var s := Exec(INIT, es + [e] + more);
      exists w :: ReplayOf(s, rid, w) && CreatedBy(s, k, w)
        && (s.reqs[rid].ph.body == s.reqs[w].ph.body <==> read.row.estado == Completed)
    ensures var s := Exec(INIT, es + [e] + more); var loaded := Exec(INIT, es).db.archivos[k];
      forall w :: IsCreated(s, w) && s.reqs[w].batch == s.reqs[rid].batch ==>
        (s.reqs[rid].ph.body == s.reqs[w].ph.body
         <==> read.row.estado == Completed && loaded.digest == s.reqs[rid].batch.digest)
  {
    var s := Exec(INIT, es + [e] + more);
    AnswersLoaded(es, e, more, rid, read, k);
    RunKeepsInv(es + [e] + more);
    ReplayEqualsCreation(s, rid);
    var w :| ReplayOf(s, rid, w) && SameButEstado(s, rid, w);
    assert RequestOk(s.db, s.reqs[w]);
    forall w | IsCreated(s, w) && s.reqs[w].batch == s.reqs[rid].batch
      ensures s.reqs[rid].ph.body == s.reqs[w].ph.body
         <==> s.reqs[rid].ph.body.estado == Completed && s.reqs[rid].ph.body.digest == s.reqs[rid].batch.digest
    {
      SameBatchSameBody(s, rid, w);
    }
  }

  /** `rid` is on its way to a 200 or there. */
  predicate IsReplaying(s: State, rid: Rid) {
    IsIngest(s, rid) && (s.reqs[rid].ph.Replaying? || s.reqs[rid].ph.Replayed?)
  }

  lemma StartedByLoading(s: State, e: Event, rid: Rid)
    requires e.rid == rid && !IsReplaying(s, rid) && IsReplaying(Step(s, e), rid)
    ensures IsIngest(s, rid) && (e.LoadFiles? || e.LoadOriginal?) && e.pick.Some?
    ensures e.LoadFiles? ==> s.reqs[rid].ph.RowRead? && FirstFile(s.db, s.reqs[rid].ph.read.id, e.pick)
    ensures e.LoadOriginal? ==> s.reqs[rid].ph.OriginalRead? && FirstFile(s.db, s.reqs[rid].ph.original.id, e.pick)
  {
  }

  lemma StartsReplaying(s: State, e: Event, rid: Rid)
    requires !IsReplaying(s, rid) && IsReplaying(Step(s, e), rid)
    ensures exists read, k :: LoadsFile(s, e, rid, read, k)
  {
    if e.rid != rid { StepTouchesOwn(s, e); }
    StartedByLoading(s, e, rid);
    var read := if s.reqs[rid].ph.RowRead? then s.reqs[rid].ph.read else s.reqs[rid].ph.original;
    assert LoadsFile(s, e, rid, read, e.pick.value);
  }

  /** So the condition covers every 200 of every run: each one loaded its file in some step of it. */
  lemma {:induction false} EveryReplayLoaded(es: seq<Event>, rid: Rid, n: nat)
    requires n <= |es| && IsReplaying(Exec(INIT, es[..n]), rid)
    ensures exists i, read, k :: 0 <= i < n && LoadsFile(Exec(INIT, es[..i]), es[i], rid, read, k)
    decreases n
  {
    if n > 0 {
      LastEvent(es, n - 1);
      if IsReplaying(Exec(INIT, es[..n - 1]), rid) {
        EveryReplayLoaded(es, rid, n - 1);
      } else {
        StartsReplaying(Exec(INIT, es[..n - 1]), es[n - 1], rid);
      }
    }
  }

  /** A row and a file of it loaded from the same state give the 201 body, unless it is running. */
  lemma FreshBodyIsCreation(s: State, id: Uuid, k: nat, w: Rid)
    requires Inv(s) && id in s.db.syncs && s.db.syncs[id].estado != Running
    requires FirstFile(s.db, id, Some(k)) && CreatedBy(s, k, w)
    ensures ResponseOf(Read(id, s.db.syncs[id]), s.db.archivos[k]) == s.reqs[w].ph.body
  {
    assert RequestOk(s.db, s.reqs[w]);
    FreshReadOk(s.db, id);
    assert HasFile(s.db, id);
    DescribesFirstFile(s.db, Read(id, s.db.syncs[id]), k);
  }

  /** The rows of sync `id` and file `k` give the 201 body of `w` unless the sync is running, and not then. */
  ghost predicate EchoesUnlessRunning(s: State, id: Uuid, k: nat, w: Rid)
    requires id in s.db.syncs && k in s.db.archivos
  {
    && CreatedBy(s, k, w)
    && (ResponseOf(Read(id, s.db.syncs[id]), s.db.archivos[k]) == s.reqs[w].ph.body
        <==> s.db.syncs[id].estado != Running)
  }

  lemma TwoReads(s: State, rid: Rid, id: Uuid, k: nat)
    requires IsIngest(s, rid) && s.reqs[rid].ph.Start?
    requires FoundByCid(s.db, s.reqs[rid].batch.cid, Some(id)) && FirstFile(s.db, id, Some(k))
    ensures var s' := Step(Step(s, SelectSync(rid, Some(id))), LoadFiles(rid, Some(k)));
      && rid in s'.reqs
      && s'.reqs[rid] == Ingest(s.reqs[rid].batch, Replaying(Read(id, s.db.syncs[id]), k, s.db.archivos[k]))
  {
  }

  lemma FirstFileBody(s: State, id: Uuid, k: nat)
    requires Inv(s) && id in s.db.syncs && FirstFile(s.db, id, Some(k))
    ensures exists w :: EchoesUnlessRunning(s, id, k, w)
  {
    var w :| CreatedBy(s, k, w);
    assert RequestOk(s.db, s.reqs[w]);
    if s.db.syncs[id].estado != Running { FreshBodyIsCreation(s, id, k, w); }
    assert EchoesUnlessRunning(s, id, k, w);
  }

  /** A replay that loads its row and its files with nothing in between echoes the 201 body of the
      file exactly when a RETRY_JOB has not set its sync to running, error logs or not. */
  lemma UndisturbedReplayExactly(es: seq<Event>, rid: Rid, id: Uuid, k: nat)
    requires var s := Exec(INIT, es);
      && IsIngest(s, rid) && s.reqs[rid].ph.Start?
      && FoundByCid(s.db, s.reqs[rid].batch.cid, Some(id)) && FirstFile(s.db, id, Some(k))
    ensures var s := Exec(INIT, es); var s' := Step(Step(s, SelectSync(rid, Some(id))), LoadFiles(rid, Some(k)));
      && rid in s'.reqs
      && s'.reqs[rid] == Ingest(s.reqs[rid].batch, Replaying(Read(id, s.db.syncs[id]), k, s.db.archivos[k]))
      && exists w :: EchoesUnlessRunning(s, id, k, w)
  {
    var s := Exec(INIT, es);
    RunKeepsInv(es);
    TwoReads(s, rid, id, k);
    FirstFileBody(s, id, k);
  }

  // ----- which file a replay may load -----

  ghost predicate OwnsOneFile(db: Db, id: Uuid) {
    forall j: nat, k: nat :: FirstFile(db, id, Some(j)) && FirstFile(db, id, Some(k)) ==> j == k
  }

  /** The files have no order, so a sync that owns the checksum of a request is sure to answer with
      it exactly when it owns no other file. */
  lemma OwnFileExactly(es: seq<Event>, id: Uuid, d: Digest)
    requires OwnsDigest(Exec(INIT, es).db, id, d)
    ensures var db := Exec(INIT, es).db;
      (forall k :: FirstFile(db, id, Some(k)) ==> db.archivos[k].digest == d) <==> OwnsOneFile(db, id)
  {
    var db := Exec(INIT, es).db;
    RunKeepsInv(es);
    var k :| k in db.archivos && db.archivos[k].syncId == id && db.archivos[k].digest == d;
    assert FirstFile(db, id, Some(k));
  }

  /** The file a 201 stored belongs to the sync of its correlation_id. */
  lemma CreatedUnderCid(s: State, id: Uuid, w: Rid)
    requires Inv(s) && IsCreated(s, w) && id in s.db.syncs && s.db.syncs[id].cid == s.reqs[w].batch.cid
    ensures var k := s.reqs[w].ph.stored;
      FirstFile(s.db, id, Some(k)) && s.db.archivos[k].digest == s.reqs[w].batch.digest
  {
    assert RequestOk(s.db, s.reqs[w]);
    assert CreatedBy(s, s.reqs[w].ph.stored, w);
    CreatorCarries(s, s.reqs[w].ph.stored, w);
  }

  lemma OtherFileExists(db: Db, id: Uuid, own: nat)
    requires UniqueDigests(db) && FirstFile(db, id, Some(own)) && !OwnsOneFile(db, id)
    ensures exists k :: FirstFile(db, id, Some(k)) && db.archivos[k].digest != db.archivos[own].digest
  {
    var j: nat, k: nat :| FirstFile(db, id, Some(j)) && FirstFile(db, id, Some(k)) && j != k;
    assert FirstFile(db, id, Some(if j == own then k else j));
  }

  /** The promise of the documentation, "200 with the identical stored payload on replay", as a condition on
      the tables: a batch that was answered 201 and is sent again, with its row and its files read from one
      state, is sure to get the body of its 201 exactly when its sync is not running and owns one file. */
  lemma RepeatIsIdenticalExactly(es: seq<Event>, rid: Rid, id: Uuid, w: Rid)
    requires var s := Exec(INIT, es);
      && IsIngest(s, rid) && s.reqs[rid].ph.Start? && FoundByCid(s.db, s.reqs[rid].batch.cid, Some(id))
      && IsCreated(s, w) && s.reqs[w].batch == s.reqs[rid].batch
    ensures var s := Exec(INIT, es); var row := s.db.syncs[id];
      (forall k :: FirstFile(s.db, id, Some(k)) ==> ResponseOf(Read(id, row), s.db.archivos[k]) == s.reqs[w].ph.body)
      <==> row.estado != Running && OwnsOneFile(s.db, id)
  {
    var s := Exec(INIT, es);
    var own := s.reqs[w].ph.stored;
    RunKeepsInv(es);
    CreatedUnderCid(s, id, w);
    assert RequestOk(s.db, s.reqs[w]) && CreatedBy(s, own, w);
    if s.db.syncs[id].estado != Running { FreshBodyIsCreation(s, id, own, w); }
    if OwnsOneFile(s.db, id) {
      assert forall k :: FirstFile(s.db, id, Some(k)) ==> k == own;
    } else {
      OtherFileExists(s.db, id, own);
    }
  }

  // ----- whose correlation_id a replay carries -----

  /** The checksum of `b` is stored under another correlation_id. */
  ghost predicate StoredForeign(db: Db, b: Batch) {
    exists k :: k in db.archivos && db.archivos[k].digest == b.digest && !FileHasCid(db, k, b.cid)
  }

  /** What a request that looks for its checksum knows: it is not stored under its own correlation_id. */
  ghost predicate ForeignOk(db: Db, req: Request) {
    match req
    case Ingest(b, ByDigest) => StoredForeign(db, b)
    case Ingest(b, OriginalRead(read, viaDigest)) => viaDigest <==> read.row.cid != b.cid
    case _ => true
  }

  ghost predicate AllForeignOk(s: State) {
    forall rid :: rid in s.reqs ==> ForeignOk(s.db, s.reqs[rid])
  }

  lemma StoredForeignGrows(db: Db, db': Db, b: Batch)
    requires Integrity(db) && Extends(db, db') && StoredForeign(db, b)
    ensures StoredForeign(db', b)
  {
    var k :| k in db.archivos && db.archivos[k].digest == b.digest && !FileHasCid(db, k, b.cid);
    assert k in db'.archivos && db'.archivos[k].digest == b.digest && !FileHasCid(db', k, b.cid);
  }

  /** A conflict whose correlation_id is not stored is one over the checksum, so over a foreign file. */
  lemma MissedCidIsForeign(s: State, rid: Rid)
    requires Inv(s) && IsIngest(s, rid) && s.reqs[rid].ph.Conflicted? && !HasCid(s.db, s.reqs[rid].batch.cid)
    ensures StoredForeign(s.db, s.reqs[rid].batch)
  {
    assert RequestOk(s.db, s.reqs[rid]);
    var b := s.reqs[rid].batch;
    var k :| k in s.db.archivos && s.db.archivos[k].digest == b.digest;
    assert s.db.archivos[k].syncId in s.db.syncs;
    assert !FileHasCid(s.db, k, b.cid);
  }

  lemma FoundIsForeign(db: Db, b: Batch, id: Uuid)
    requires Integrity(db) && StoredForeign(db, b) && FoundByDigest(db, b.digest, Some(id))
    ensures db.syncs[id].cid != b.cid
  {
    var k :| k in db.archivos && db.archivos[k].digest == b.digest && !FileHasCid(db, k, b.cid);
    var j :| j in db.archivos && db.archivos[j].syncId == id && db.archivos[j].digest == b.digest;
    assert j == k;
  }

  lemma CidLookupForeignOk(s: State, rid: Rid, found: Option<Uuid>)
    requires Inv(s) && AllForeignOk(s) && rid in LookupCidStep(s, rid, found).reqs
    ensures ForeignOk(s.db, LookupCidStep(s, rid, found).reqs[rid])
  {
    assert ForeignOk(s.db, s.reqs[rid]);
    if IsIngest(s, rid) && s.reqs[rid].ph.Conflicted? && !HasCid(s.db, s.reqs[rid].batch.cid) {
      MissedCidIsForeign(s, rid);
    }
  }

  lemma DigestLookupForeignOk(s: State, rid: Rid, found: Option<Uuid>)
    requires Inv(s) && AllForeignOk(s) && rid in LookupDigestStep(s, rid, found).reqs
    ensures ForeignOk(s.db, LookupDigestStep(s, rid, found).reqs[rid])
  {
    assert ForeignOk(s.db, s.reqs[rid]);
    if IsIngest(s, rid) && s.reqs[rid].ph.ByDigest? && found.Some?
       && FoundByDigest(s.db, s.reqs[rid].batch.digest, found) {
      FoundIsForeign(s.db, s.reqs[rid].batch, found.value);
    }
  }

  lemma OtherStepForeignOk(s: State, e: Event)
    requires !e.LookupCid? && !e.LookupDigest? && e.rid in Step(s, e).reqs
    requires e.rid in s.reqs ==> ForeignOk(s.db, s.reqs[e.rid])
    ensures ForeignOk(s.db, Step(s, e).reqs[e.rid])
  {
  }

  lemma OwnStepForeignOk(s: State, e: Event)
    requires Inv(s) && AllForeignOk(s) && e.rid in Step(s, e).reqs
    ensures ForeignOk(s.db, Step(s, e).reqs[e.rid])
  {
    match e
    case LookupCid(rid, found) => CidLookupForeignOk(s, rid, found);
    case LookupDigest(rid, found) => DigestLookupForeignOk(s, rid, found);
    case _ =>
      if e.rid in s.reqs { assert ForeignOk(s.db, s.reqs[e.rid]); }
      OtherStepForeignOk(s, e);
  }

  lemma StepKeepsForeignOk(s: State, e: Event)
    requires Inv(s) && AllForeignOk(s)
    ensures AllForeignOk(Step(s, e))
  {
    var s' := Step(s, e);
    StepKeepsInv(s, e);
    StepTouchesOwn(s, e);
    forall rid | rid in s'.reqs ensures ForeignOk(s'.db, s'.reqs[rid]) {
      if rid == e.rid { OwnStepForeignOk(s, e); } else { assert ForeignOk(s.db, s.reqs[rid]); }
      if s'.reqs[rid].Ingest? && s'.reqs[rid].ph.ByDigest? { StoredForeignGrows(s.db, s'.db, s'.reqs[rid].batch); }
    }
  }

  lemma {:induction false} ForeignRun(s: State, es: seq<Event>)
    requires Inv(s) && AllForeignOk(s)
    ensures AllForeignOk(Exec(s, es))
    decreases |es|
  {
    if es != [] {
      StepKeepsInv(s, es[0]);
      StepKeepsForeignOk(s, es[0]);
      ForeignRun(Step(s, es[0]), es[1..]);
    }
  }

  predicate ViaDigest(ph: IngestPhase) {
    ph.OriginalRead? && ph.viaDigest
  }

  lemma LoadedRowCid(s: State, e: Event, rid: Rid, read: Read, k: nat)
    requires Inv(s) && AllForeignOk(s) && LoadsFile(s, e, rid, read, k)
    ensures read.row.cid == s.reqs[rid].batch.cid <==> !ViaDigest(s.reqs[rid].ph)
  {
    assert RequestOk(s.db, s.reqs[rid]) && ForeignOk(s.db, s.reqs[rid]);
  }

  lemma LoadedInRun(es: seq<Event>, e: Event, rid: Rid, read: Read, k: nat)
    requires LoadsFile(Exec(INIT, es), e, rid, read, k)
    ensures read.row.cid == Exec(INIT, es).reqs[rid].batch.cid <==> !ViaDigest(Exec(INIT, es).reqs[rid].ph)
  {
    InitInv();
    RunKeepsInv(es);
    ForeignRun(INIT, es);
    LoadedRowCid(Exec(INIT, es), e, rid, read, k);
  }

  lemma {:induction false} BatchStaysInRun(s: State, es: seq<Event>, rid: Rid)
    requires IsIngest(s, rid)
    ensures IsIngest(Exec(s, es), rid) && Exec(s, es).reqs[rid].batch == s.reqs[rid].batch
    decreases |es|
  {
    if es != [] {
      BatchStays(s, es[0], rid);
      BatchStaysInRun(Step(s, es[0]), es[1..], rid);
    }
  }

  lemma BatchOfRun(es: seq<Event>, more: seq<Event>, rid: Rid)
    requires IsIngest(Exec(INIT, es), rid)
    ensures IsIngest(Exec(INIT, es + more), rid)
    ensures Exec(INIT, es + more).reqs[rid].batch == Exec(INIT, es).reqs[rid].batch
  {
    ExecAppend(INIT, es, more);
    BatchStaysInRun(Exec(INIT, es), more, rid);
  }

  /** In every run: a 200 carries the correlation_id of its request exactly when the row was found by it;
      one that was found by the checksum always carries another one. And it carries the checksum of
      its request exactly when the file loaded does. */
  lemma ReplayCarriesExactly(es: seq<Event>, e: Event, more: seq<Event>, rid: Rid, read: Read, k: nat)
    requires LoadsFile(Exec(INIT, es), e, rid, read, k)
    requires var s := Exec(INIT, es + [e] + more); IsIngest(s, rid) && s.reqs[rid].ph.Replayed?
    ensures var s, before := Exec(INIT, es + [e] + more), Exec(INIT, es); var body := s.reqs[rid].ph.body;
      && (body.cid == s.reqs[rid].batch.cid <==> !ViaDigest(before.reqs[rid].ph))
      && (body.digest == s.reqs[rid].batch.digest <==> before.db.archivos[k].digest == before.reqs[rid].batch.digest)
  {
    AnswersLoaded(es, e, more, rid, read, k);
    LoadedInRun(es, e, rid, read, k);
    BatchOfRun(es, [e] + more, rid);
    assert es + [e] + more == es + ([e] + more);
  }
}
