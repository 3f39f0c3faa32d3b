/** The inductive invariant of the protocol: what every step keeps. */
module Invariants {
  import opened Basics
  import opened Tables
  import opened Protocol

  /** A loaded sync row is still there, and when it was loaded as completed the sync owns a file. */
  ghost predicate ReadOk(db: Db, read: Read) {
    && read.id in db.syncs && db.syncs[read.id].cid == read.row.cid
    && read.row.estado in {Running, Completed, Failed}
    && (read.row.estado == Completed ==> HasFile(db, read.id))
  }

  /** `body` describes the stored file `k` and its sync in every field except estado. */
  ghost predicate Describes(db: Db, body: Response, k: nat) {
    && k in db.archivos && db.archivos[k].syncId in db.syncs
    && body.cid == db.syncs[db.archivos[k].syncId].cid
    && body.syncId == db.archivos[k].syncId
    && body.nombre == db.archivos[k].nombre && body.tipo == db.archivos[k].tipo
    && body.digest == db.archivos[k].digest && body.registros == db.archivos[k].registros
  }

  /** How a replayed sync is tied to the request: by its correlation_id or by its checksum. */
  ghost predicate Original(db: Db, b: Batch, cid: Uuid, id: Uuid) {
    cid == b.cid || OwnsDigest(db, id, b.digest)
  }

  ghost predicate IngestOk(db: Db, b: Batch, ph: IngestPhase) {
    match ph
    case Start => true
    case RowRead(read) => ReadOk(db, read) && read.row.cid == b.cid
    case PreChecked(existing) => existing.Some? ==>
      ReadOk(db, existing.value) && existing.value.row.cid == b.cid && existing.value.row.estado != Completed
    case Conflicted => HasCid(db, b.cid) || HasDigest(db, b.digest)
    case ByDigest => HasDigest(db, b.digest)
    case OriginalRead(read, viaDigest) => ReadOk(db, read) &&
      if viaDigest then OwnsDigest(db, read.id, b.digest) else read.row.cid == b.cid
    case Replaying(read, k, a) =>
      ReadOk(db, read) && Describes(db, ResponseOf(read, a), k) && Original(db, b, read.row.cid, read.id)
    case Created(body, k) =>
      Describes(db, body, k) && body.estado == Completed
      && body == Response(b.cid, body.syncId, Completed, b.nombre, b.tipo, b.digest, b.registros)
    case Replayed(body, k) =>
      Describes(db, body, k) && Original(db, b, body.cid, body.syncId)
      && body.estado in {Running, Completed, Failed}
    case Reraised => true
    case Aborted => true
  }

  ghost predicate RequestOk(db: Db, req: Request) {
    match req
    case Ingest(b, ph) => IngestOk(db, b, ph)
    case ErrorLog(cid, codigo, lph) =>
      codigo != DuplicateBatch && (lph == LParent(true) || lph == LDone(true) ==> HasCid(db, cid))
    case Remediation(target, accion, kind, rph) =>
      && (rph.RLoaded? || rph.RReady? ==> target in db.syncs)
      && (rph.RLoaded? ==> kind.Remediate? && accion == ForceSkipValidation)
      && (rph.RReady? && kind.Remediate? ==> accion == RetryJob || accion == ForceSkipValidation)
  }

  ghost predicate RequestsOk(s: State) {
    forall rid :: rid in s.reqs ==> RequestOk(s.db, s.reqs[rid])
  }

  ghost predicate IsCreated(s: State, rid: Rid) {
    IsIngest(s, rid) && s.reqs[rid].ph.Created?
  }

  ghost predicate IsReplayOf(s: State, rid: Rid, cid: Uuid) {
    IsIngest(s, rid) && s.reqs[rid].ph.Replayed? && s.reqs[rid].ph.body.cid == cid
  }

  ghost predicate CreatedBy(s: State, k: nat, rid: Rid) {
    IsCreated(s, rid) && s.reqs[rid].ph.stored == k
  }

  /** Every stored file was announced by a 201. */
  ghost predicate FilesHaveCreators(s: State) {
    forall k :: k in s.db.archivos ==> exists rid :: CreatedBy(s, k, rid)
  }

  /** The requests answered 201. */
  ghost function Winners(s: State): set<Rid> {
    set rid | rid in s.reqs && IsCreated(s, rid)
  }

  /** The requests answered 200 with a body that carries `cid`. */
  ghost function Replays(s: State, cid: Uuid): set<Rid> {
    set rid | rid in s.reqs && IsReplayOf(s, rid, cid)
  }

  /** The ERR_DUPLICATE_BATCH rows of `cid`. */
  ghost function DuplicateLogs(db: Db, cid: Uuid): set<nat> {
    set k | k in db.logs && db.logs[k] == LogRow(cid, DuplicateBatch)
  }

  ghost predicate Accounted(s: State) {
    && |Winners(s)| == |s.db.archivos|
    && forall cid :: |Replays(s, cid)| == |DuplicateLogs(s.db, cid)|
  }

  ghost predicate Inv(s: State) {
    Integrity(s.db) && Lifecycle(s.db) && RequestsOk(s) && FilesHaveCreators(s) && Accounted(s)
  }

  /** What every step does to a state: it keeps the invariant and only extends the tables. */
  ghost predicate Kept(s: State, s': State) {
    Inv(s') && Extends(s.db, s'.db)
  }

  // ----- what growing tables keep -----

  lemma HasCidGrows(db: Db, db': Db, cid: Uuid)
    requires Extends(db, db') && HasCid(db, cid)
    ensures HasCid(db', cid)
  {
    var id :| id in db.syncs && db.syncs[id].cid == cid;
    assert id in db'.syncs && db'.syncs[id].cid == cid;
  }

  lemma HasFileGrows(db: Db, db': Db, id: Uuid)
    requires Extends(db, db') && HasFile(db, id)
    ensures HasFile(db', id)
  {
    var k :| k in db.archivos && db.archivos[k].syncId == id;
    assert k in db'.archivos && db'.archivos[k].syncId == id;
  }

  lemma OwnsDigestGrows(db: Db, db': Db, id: Uuid, d: Digest)
    requires Extends(db, db') && OwnsDigest(db, id, d)
    ensures OwnsDigest(db', id, d)
  {
    var k :| k in db.archivos && db.archivos[k].syncId == id && db.archivos[k].digest == d;
    assert k in db'.archivos && db'.archivos[k].syncId == id && db'.archivos[k].digest == d;
  }

  lemma HasDigestGrows(db: Db, db': Db, d: Digest)
    requires Extends(db, db') && HasDigest(db, d)
    ensures HasDigest(db', d)
  {
    var k :| k in db.archivos && db.archivos[k].digest == d;
    assert k in db'.archivos && db'.archivos[k].digest == d;
  }

  lemma ReadOkGrows(db: Db, db': Db, read: Read)
    requires Extends(db, db') && ReadOk(db, read)
    ensures ReadOk(db', read)
  {
    if read.row.estado == Completed { HasFileGrows(db, db', read.id); }
  }

  lemma OriginalGrows(db: Db, db': Db, b: Batch, cid: Uuid, id: Uuid)
    requires Extends(db, db') && Original(db, b, cid, id)
    ensures Original(db', b, cid, id)
  {
    if cid != b.cid { OwnsDigestGrows(db, db', id, b.digest); }
  }

  lemma IngestOkGrows(db: Db, db': Db, b: Batch, ph: IngestPhase)
    requires Extends(db, db') && IngestOk(db, b, ph)
    ensures IngestOk(db', b, ph)
  {
    match ph
    case RowRead(read) => ReadOkGrows(db, db', read);
    case PreChecked(existing) => if existing.Some? { ReadOkGrows(db, db', existing.value); }
    case Conflicted =>
      if HasCid(db, b.cid) { HasCidGrows(db, db', b.cid); } else { HasDigestGrows(db, db', b.digest); }
    case ByDigest => HasDigestGrows(db, db', b.digest);
    case OriginalRead(read, viaDigest) =>
      ReadOkGrows(db, db', read);
      if viaDigest { OwnsDigestGrows(db, db', read.id, b.digest); }
    case Replaying(read, k, a) =>
      ReadOkGrows(db, db', read);
      OriginalGrows(db, db', b, read.row.cid, read.id);
    case Replayed(body, k) => OriginalGrows(db, db', b, body.cid, body.syncId);
    case _ =>
  }

  lemma RequestOkGrows(db: Db, db': Db, req: Request)
    requires Extends(db, db') && RequestOk(db, req)
    ensures RequestOk(db', req)
  {
    match req
    case Ingest(b, ph) => IngestOkGrows(db, db', b, ph);
    case ErrorLog(cid, _, lph) => if lph == LParent(true) || lph == LDone(true) { HasCidGrows(db, db', cid); }
    case Remediation(_, _, _, _) =>
  }

  /** The requests a step does not touch stay as they should be. */
  lemma OthersStayOk(s: State, s': State, rid: Rid, req: Request)
    requires RequestsOk(s) && Extends(s.db, s'.db)
    requires s'.reqs == s.reqs[rid := req] && RequestOk(s'.db, req)
    ensures RequestsOk(s')
  {
    forall r | r in s'.reqs ensures RequestOk(s'.db, s'.reqs[r]) {
      if r != rid { RequestOkGrows(s.db, s'.db, s.reqs[r]); }
    }
  }

  // ----- steps that only move one request -----

  ghost predicate Answered(req: Request) {
    req.Ingest? && (req.ph.Created? || req.ph.Replayed?)
  }

  lemma CountersKept(s: State, s': State, rid: Rid, req: Request)
    requires s'.reqs == s.reqs[rid := req]
    requires rid in s.reqs ==> !Answered(s.reqs[rid])
    requires !Answered(req)
    ensures Winners(s') == Winners(s)
    ensures forall cid :: Replays(s', cid) == Replays(s, cid)
    ensures forall k, r :: CreatedBy(s, k, r) ==> CreatedBy(s', k, r)
  {
    forall r ensures IsCreated(s', r) == IsCreated(s, r) {}
    forall cid ensures Replays(s', cid) == Replays(s, cid) {
      forall r ensures IsReplayOf(s', r, cid) == IsReplayOf(s, r, cid) {}
    }
  }

  /** A step that writes nothing and does not answer its request keeps the invariant. */
  lemma MoveKeepsInv(s: State, rid: Rid, req: Request)
    requires Inv(s)
    requires rid in s.reqs ==> !Answered(s.reqs[rid])
    requires !Answered(req) && RequestOk(s.db, req)
    ensures Inv(Put(s, rid, req)) && Extends(s.db, Put(s, rid, req).db)
  {
    var s' := Put(s, rid, req);
    CountersKept(s, s', rid, req);
    OthersStayOk(s, s', rid, req);
    forall k | k in s'.db.archivos ensures exists r :: CreatedBy(s', k, r) {
      var r :| CreatedBy(s, k, r);
      assert CreatedBy(s', k, r);
    }
  }

  // ----- the pre-check and the look-ups -----

  lemma ArriveKeepsInv(s: State, e: Event)
    requires Inv(s) && e.Arrive?
    ensures Kept(s, Step(s, e))
  {
    var rid, req := e.rid, e.req;
    if rid !in s.reqs && Initial(req) { MoveKeepsInv(s, rid, req); }
  }

  /** A row that is loaded in a reachable state satisfies ReadOk. */
  lemma FreshReadOk(db: Db, id: Uuid)
    requires Lifecycle(db) && id in db.syncs
    ensures ReadOk(db, Read(id, db.syncs[id]))
  {
  }

  lemma SelectSyncKeepsInv(s: State, e: Event)
    requires Inv(s) && e.SelectSync?
    ensures Kept(s, Step(s, e))
  {
    var rid, found := e.rid, e.found;
    var s' := SelectSyncStep(s, rid, found);
    if s' != s {
      if found.Some? { FreshReadOk(s.db, found.value); }
      MoveKeepsInv(s, rid, s'.reqs[rid]);
    }
  }

  lemma DescribesFirstFile(db: Db, read: Read, k: nat)
    requires Integrity(db) && ReadOk(db, read)
    requires FirstFile(db, read.id, Some(k))
    ensures Describes(db, ResponseOf(read, db.archivos[k]), k)
  {
  }

  lemma LoadFilesKeepsInv(s: State, e: Event)
    requires Inv(s) && e.LoadFiles?
    ensures Kept(s, Step(s, e))
  {
    var rid, pick := e.rid, e.pick;
    var s' := LoadFilesStep(s, rid, pick);
    if s' != s {
      assert RequestOk(s.db, s.reqs[rid]);
      if pick.Some? { DescribesFirstFile(s.db, s.reqs[rid].ph.read, pick.value); }
      MoveKeepsInv(s, rid, s'.reqs[rid]);
    }
  }

  lemma LookupCidKeepsInv(s: State, e: Event)
    requires Inv(s) && e.LookupCid?
    ensures Kept(s, Step(s, e))
  {
    var rid, found := e.rid, e.found;
    var s' := LookupCidStep(s, rid, found);
    if s' != s {
      assert RequestOk(s.db, s.reqs[rid]);
      if found.Some? { FreshReadOk(s.db, found.value); }
      MoveKeepsInv(s, rid, s'.reqs[rid]);
    }
  }

  lemma LookupDigestKeepsInv(s: State, e: Event)
    requires Inv(s) && e.LookupDigest?
    ensures Kept(s, Step(s, e))
  {
    var rid, found := e.rid, e.found;
    var s' := LookupDigestStep(s, rid, found);
    if s' != s {
      if found.Some? { FreshReadOk(s.db, found.value); }
      MoveKeepsInv(s, rid, s'.reqs[rid]);
    }
  }

  lemma LoadOriginalKeepsInv(s: State, e: Event)
    requires Inv(s) && e.LoadOriginal?
    ensures Kept(s, Step(s, e))
  {
    var rid, pick := e.rid, e.pick;
    var s' := LoadOriginalStep(s, rid, pick);
    if s' != s {
      assert RequestOk(s.db, s.reqs[rid]);
      if pick.Some? { DescribesFirstFile(s.db, s.reqs[rid].ph.original, pick.value); }
      MoveKeepsInv(s, rid, s'.reqs[rid]);
    }
  }

  lemma SelectParentKeepsInv(s: State, e: Event)
    requires Inv(s) && e.SelectParent?
    ensures Kept(s, Step(s, e))
  {
    var rid := e.rid;
    var s' := SelectParentStep(s, rid);
    if s' != s {
      assert RequestOk(s.db, s.reqs[rid]);
      MoveKeepsInv(s, rid, s'.reqs[rid]);
    }
  }

  lemma AfterGetOk(db: Db, req: Request)
    requires req.Remediation?
    ensures RequestOk(db, req.(rph := AfterGet(db, req)))
  {
  }

  lemma GetSyncKeepsInv(s: State, e: Event)
    requires Inv(s) && e.GetSync?
    ensures Kept(s, Step(s, e))
  {
    var rid := e.rid;
    if rid in s.reqs && s.reqs[rid].Remediation? && s.reqs[rid].rph.RStart? {
      AfterGetOk(s.db, s.reqs[rid]);
      MoveKeepsInv(s, rid, s.reqs[rid].(rph := AfterGet(s.db, s.reqs[rid])));
    }
  }

  lemma GetFilesKeepsInv(s: State, e: Event)
    requires Inv(s) && e.GetFiles?
    ensures Kept(s, Step(s, e))
  {
    var rid := e.rid;
    var s' := GetFilesStep(s, rid);
    if s' != s {
      assert RequestOk(s.db, s.reqs[rid]);
      MoveKeepsInv(s, rid, s'.reqs[rid]);
    }
  }

  lemma AbortKeepsInv(s: State, e: Event)
    requires Inv(s) && e.Abort?
    ensures Kept(s, Step(s, e))
  {
    var rid := e.rid;
    var s' := AbortStep(s, rid);
    if s' != s {
      assert RequestOk(s.db, s.reqs[rid]);
      MoveKeepsInv(s, rid, s'.reqs[rid]);
    }
  }

  // ----- the transactions -----

  lemma CommitBatchExtends(db: Db, b: Batch, existing: Option<Read>, newSync: Uuid, newFile: nat, clock: Clock)
    requires newSync !in db.syncs && newFile !in db.archivos
    requires existing.Some? ==> ReadOk(db, existing.value)
    ensures Extends(db, CommitBatch(db, b, existing, newSync, newFile, clock))
  {
  }

  lemma CommitBatchIntegrity(db: Db, b: Batch, existing: Option<Read>, newSync: Uuid, newFile: nat, clock: Clock)
    requires Integrity(db) && newSync !in db.syncs && newFile !in db.archivos
    requires existing.Some? ==> ReadOk(db, existing.value)
    requires !BatchClashes(db, b, existing)
    ensures Integrity(CommitBatch(db, b, existing, newSync, newFile, clock))
  {
    var db' := CommitBatch(db, b, existing, newSync, newFile, clock);
    CommitBatchExtends(db, b, existing, newSync, newFile, clock);
    forall k | k in db'.logs ensures HasCid(db', db'.logs[k].cid) { HasCidGrows(db, db', db.logs[k].cid); }
    assert UniqueDigests(db');
    assert UniqueCids(db');
  }

  lemma CommitBatchLifecycle(db: Db, b: Batch, existing: Option<Read>, newSync: Uuid, newFile: nat, clock: Clock)
    requires Integrity(db) && Lifecycle(db) && newSync !in db.syncs && newFile !in db.archivos
    requires existing.Some? ==> ReadOk(db, existing.value) && existing.value.row.estado != Completed
    ensures Lifecycle(CommitBatch(db, b, existing, newSync, newFile, clock))
  {
    var db' := CommitBatch(db, b, existing, newSync, newFile, clock);
    var target := TargetId(existing, newSync);
    CommitBatchExtends(db, b, existing, newSync, newFile, clock);
    assert newFile in db'.archivos && db'.archivos[newFile].syncId == target;
    forall id | id in db'.syncs && id != target ensures HasFile(db', id) <==> HasFile(db, id) {
      if HasFile(db, id) { HasFileGrows(db, db', id); }
      if HasFile(db', id) {
        var k :| k in db'.archivos && db'.archivos[k].syncId == id;
        assert k in db.archivos;
      }
    }
  }

  /** The 201 body built from the session's objects describes the rows just stored. */
  lemma CreatedBodyOk(db: Db, b: Batch, existing: Option<Read>, newSync: Uuid, newFile: nat, clock: Clock)
    requires newSync !in db.syncs && newFile !in db.archivos
    requires existing.Some? ==> ReadOk(db, existing.value) && existing.value.row.cid == b.cid
    ensures var id := TargetId(existing, newSync);
      IngestOk(CommitBatch(db, b, existing, newSync, newFile, clock), b,
               Created(ResponseOf(Read(id, CompletedSync(b, clock)), FileOf(b, id)), newFile))
  {
  }

  /** A 201 adds its request to the winners and nothing to the replays. */
  lemma CreatedCounters(s: State, s': State, rid: Rid, req: Request)
    requires rid in s.reqs && !Answered(s.reqs[rid])
    requires s'.reqs == s.reqs[rid := req] && req.Ingest? && req.ph.Created?
    ensures rid !in Winners(s) && Winners(s') == Winners(s) + {rid}
    ensures forall cid :: Replays(s', cid) == Replays(s, cid)
    ensures forall k, r :: CreatedBy(s, k, r) ==> CreatedBy(s', k, r)
  {
    forall r ensures IsCreated(s', r) == (r == rid || IsCreated(s, r)) {}
    forall cid ensures Replays(s', cid) == Replays(s, cid) {
      forall r ensures IsReplayOf(s', r, cid) == IsReplayOf(s, r, cid) {}
    }
  }

  lemma CreatedAccounted(s: State, s': State, rid: Rid, req: Request)
    requires Accounted(s) && rid in s.reqs && !Answered(s.reqs[rid])
    requires s'.reqs == s.reqs[rid := req] && req.Ingest? && req.ph.Created?
    requires req.ph.stored !in s.db.archivos && s'.db.logs == s.db.logs
    requires s'.db.archivos.Keys == s.db.archivos.Keys + {req.ph.stored}
    ensures Accounted(s')
  {
    CreatedCounters(s, s', rid, req);
    assert |s'.db.archivos| == |s'.db.archivos.Keys| && |s.db.archivos| == |s.db.archivos.Keys|;
    forall cid ensures |Replays(s', cid)| == |DuplicateLogs(s'.db, cid)| {
      assert DuplicateLogs(s'.db, cid) == DuplicateLogs(s.db, cid);
    }
  }

  lemma CreatedHasCreator(s: State, s': State, rid: Rid, req: Request)
    requires FilesHaveCreators(s) && rid in s.reqs && !Answered(s.reqs[rid])
    requires s'.reqs == s.reqs[rid := req] && req.Ingest? && req.ph.Created?
    requires s'.db.archivos.Keys == s.db.archivos.Keys + {req.ph.stored}
    ensures FilesHaveCreators(s')
  {
    CreatedCounters(s, s', rid, req);
    assert CreatedBy(s', req.ph.stored, rid);
    forall k | k in s'.db.archivos ensures exists r :: CreatedBy(s', k, r) {
      if k != req.ph.stored {
        var r :| CreatedBy(s, k, r);
        assert CreatedBy(s', k, r);
      }
    }
  }

  lemma CreatedKeepsInv(s: State, s': State, rid: Rid, req: Request)
    requires Inv(s) && rid in s.reqs && !Answered(s.reqs[rid])
    requires s'.reqs == s.reqs[rid := req] && req.Ingest? && req.ph.Created? && RequestOk(s'.db, req)
    requires Integrity(s'.db) && Lifecycle(s'.db) && Extends(s.db, s'.db)
    requires req.ph.stored !in s.db.archivos && s'.db.logs == s.db.logs
    requires s'.db.archivos.Keys == s.db.archivos.Keys + {req.ph.stored}
    ensures Inv(s')
  {
    CreatedAccounted(s, s', rid, req);
    CreatedHasCreator(s, s', rid, req);
    OthersStayOk(s, s', rid, req);
  }

  lemma CommittedKeepsInv(s: State, rid: Rid, newSync: Uuid, newFile: nat, clock: Clock)
    requires Inv(s) && CommitEnabled(s, rid, newSync, newFile)
    requires !BatchClashes(s.db, s.reqs[rid].batch, s.reqs[rid].ph.existing)
    ensures Inv(CommitIngestStep(s, rid, newSync, newFile, clock))
    ensures Extends(s.db, CommitIngestStep(s, rid, newSync, newFile, clock).db)
  {
    var s' := CommitIngestStep(s, rid, newSync, newFile, clock);
    var b, existing := s.reqs[rid].batch, s.reqs[rid].ph.existing;
    assert RequestOk(s.db, s.reqs[rid]);
    CommitBatchExtends(s.db, b, existing, newSync, newFile, clock);
    CommitBatchIntegrity(s.db, b, existing, newSync, newFile, clock);
    CommitBatchLifecycle(s.db, b, existing, newSync, newFile, clock);
    CreatedBodyOk(s.db, b, existing, newSync, newFile, clock);
    CreatedKeepsInv(s, s', rid, s'.reqs[rid]);
  }

  lemma CommitIngestKeepsInv(s: State, e: Event)
    requires Inv(s) && e.CommitIngest?
    ensures Kept(s, Step(s, e))
  {
    var rid, newSync, newFile, clock := e.rid, e.newSync, e.newFile, e.clock;
    if CommitEnabled(s, rid, newSync, newFile) {
      assert RequestOk(s.db, s.reqs[rid]);
      if BatchClashes(s.db, s.reqs[rid].batch, s.reqs[rid].ph.existing) {
        MoveKeepsInv(s, rid, s.reqs[rid].(ph := Conflicted));
      } else {
        CommittedKeepsInv(s, rid, newSync, newFile, clock);
      }
    }
  }

  lemma AppendLogKeepsDb(db: Db, newLog: nat, row: LogRow)
    requires Integrity(db) && Lifecycle(db) && newLog !in db.logs && HasCid(db, row.cid)
    ensures var db' := db.(logs := db.logs[newLog := row]);
      Integrity(db') && Lifecycle(db') && Extends(db, db')
  {
    var db' := db.(logs := db.logs[newLog := row]);
    assert Extends(db, db');
    forall k | k in db'.logs ensures HasCid(db', db'.logs[k].cid) {
      HasCidGrows(db, db', db'.logs[k].cid);
    }
    forall id ensures HasFile(db', id) == HasFile(db, id) {}
  }

  lemma ReplayedBodyOk(db: Db, db': Db, b: Batch, read: Read, k: nat, a: Archivo)
    requires Extends(db, db') && IngestOk(db, b, Replaying(read, k, a))
    ensures IngestOk(db', b, Replayed(ResponseOf(read, a), k))
  {
    OriginalGrows(db, db', b, read.row.cid, read.id);
  }

  /** A 200 adds its request to the replays of its body's correlation_id, and no winner. */
  lemma ReplayedCounters(s: State, s': State, rid: Rid, req: Request)
    requires rid in s.reqs && !Answered(s.reqs[rid])
    requires s'.reqs == s.reqs[rid := req] && req.Ingest? && req.ph.Replayed?
    ensures Winners(s') == Winners(s)
    ensures rid !in Replays(s, req.ph.body.cid)
    ensures Replays(s', req.ph.body.cid) == Replays(s, req.ph.body.cid) + {rid}
    ensures forall cid :: cid != req.ph.body.cid ==> Replays(s', cid) == Replays(s, cid)
    ensures forall k, r :: CreatedBy(s, k, r) ==> CreatedBy(s', k, r)
  {
    forall r ensures IsCreated(s', r) == IsCreated(s, r) {}
    forall cid, r ensures IsReplayOf(s', r, cid) == (IsReplayOf(s, r, cid) || (r == rid && cid == req.ph.body.cid)) {}
  }

  lemma CreatorsKept(s: State, s': State)
    requires FilesHaveCreators(s) && s'.db.archivos.Keys == s.db.archivos.Keys
    requires forall k, r :: CreatedBy(s, k, r) ==> CreatedBy(s', k, r)
    ensures FilesHaveCreators(s')
  {
    forall k | k in s'.db.archivos ensures exists r :: CreatedBy(s', k, r) {
      var r :| CreatedBy(s, k, r);
      assert CreatedBy(s', k, r);
    }
  }

  lemma DuplicateLogAppended(db: Db, newLog: nat, c: Uuid)
    requires newLog !in db.logs
    ensures var db' := db.(logs := db.logs[newLog := LogRow(c, DuplicateBatch)]);
      DuplicateLogs(db', c) == DuplicateLogs(db, c) + {newLog} && newLog !in DuplicateLogs(db, c)
      && forall cid :: cid != c ==> DuplicateLogs(db', cid) == DuplicateLogs(db, cid)
  {
  }

  lemma ReplayedAccounted(s: State, s': State, rid: Rid, newLog: nat, req: Request)
    requires Accounted(s) && rid in s.reqs && !Answered(s.reqs[rid])
    requires s'.reqs == s.reqs[rid := req] && req.Ingest? && req.ph.Replayed? && newLog !in s.db.logs
    requires s'.db == s.db.(logs := s.db.logs[newLog := LogRow(req.ph.body.cid, DuplicateBatch)])
    ensures Accounted(s')
  {
    ReplayedCounters(s, s', rid, req);
    DuplicateLogAppended(s.db, newLog, req.ph.body.cid);
    forall cid ensures |Replays(s', cid)| == |DuplicateLogs(s'.db, cid)| {
      if cid != req.ph.body.cid { assert Replays(s', cid) == Replays(s, cid); }
    }
  }

  lemma AnsweredKeepsInv(s: State, s': State, rid: Rid, newLog: nat, req: Request)
    requires Inv(s) && rid in s.reqs && !Answered(s.reqs[rid]) && newLog !in s.db.logs
    requires s'.reqs == s.reqs[rid := req] && req.Ingest? && req.ph.Replayed? && RequestOk(s'.db, req)
    requires s'.db == s.db.(logs := s.db.logs[newLog := LogRow(req.ph.body.cid, DuplicateBatch)])
    requires Integrity(s'.db) && Lifecycle(s'.db) && Extends(s.db, s'.db)
    ensures Inv(s')
  {
    OthersStayOk(s, s', rid, req);
    ReplayedCounters(s, s', rid, req);
    ReplayedAccounted(s, s', rid, newLog, req);
    CreatorsKept(s, s');
  }

  lemma ReplayedKeepsInv(s: State, rid: Rid, newLog: nat)
    requires Inv(s) && IsIngest(s, rid) && s.reqs[rid].ph.Replaying? && newLog !in s.db.logs
    requires HasCid(s.db, s.reqs[rid].ph.source.row.cid)
    ensures Inv(LogDuplicateStep(s, rid, newLog)) && Extends(s.db, LogDuplicateStep(s, rid, newLog).db)
  {
    var read, k, a := s.reqs[rid].ph.source, s.reqs[rid].ph.key, s.reqs[rid].ph.file;
    var db' := s.db.(logs := s.db.logs[newLog := LogRow(read.row.cid, DuplicateBatch)]);
    var req := s.reqs[rid].(ph := Replayed(ResponseOf(read, a), k));
    AppendLogKeepsDb(s.db, newLog, LogRow(read.row.cid, DuplicateBatch));
    assert RequestOk(s.db, s.reqs[rid]);
    ReplayedBodyOk(s.db, db', s.reqs[rid].batch, read, k, a);
    AnsweredKeepsInv(s, State(db', s.reqs[rid := req]), rid, newLog, req);
  }

  lemma LogDuplicateKeepsInv(s: State, e: Event)
    requires Inv(s) && e.LogDuplicate?
    ensures Kept(s, Step(s, e))
  {
    var rid, newLog := e.rid, e.newLog;
    if IsIngest(s, rid) && s.reqs[rid].ph.Replaying? && newLog !in s.db.logs {
      assert RequestOk(s.db, s.reqs[rid]);
      assert HasCid(s.db, s.reqs[rid].ph.source.row.cid);
      ReplayedKeepsInv(s, rid, newLog);
    }
  }

  lemma FailedParentKeepsDb(db: Db, cid: Uuid, newSync: Uuid, clock: Clock)
    requires Integrity(db) && Lifecycle(db) && newSync !in db.syncs && !HasCid(db, cid)
    ensures var db' := db.(syncs := db.syncs[newSync := FailedParent(cid, clock)]);
      Integrity(db') && Lifecycle(db') && Extends(db, db') && HasCid(db', cid)
  {
    var db' := db.(syncs := db.syncs[newSync := FailedParent(cid, clock)]);
    assert Extends(db, db');
    assert newSync in db'.syncs && db'.syncs[newSync].cid == cid;
    forall k | k in db'.logs ensures HasCid(db', db'.logs[k].cid) { HasCidGrows(db, db', db.logs[k].cid); }
    forall id ensures HasFile(db', id) == HasFile(db, id) {}
  }

  lemma ErrorLogKeepsDb(db: Db, cid: Uuid, codigo: Codigo, parentSeen: bool, newSync: Uuid, newLog: nat, clock: Clock)
    requires Integrity(db) && Lifecycle(db) && newSync !in db.syncs && newLog !in db.logs
    requires !LogClashes(db, cid, parentSeen)
    ensures var db' := CommitErrorLog(db, cid, codigo, parentSeen, newSync, newLog, clock);
      Integrity(db') && Lifecycle(db') && Extends(db, db') && HasCid(db', cid)
  {
    if parentSeen {
      AppendLogKeepsDb(db, newLog, LogRow(cid, codigo));
      HasCidGrows(db, CommitErrorLog(db, cid, codigo, parentSeen, newSync, newLog, clock), cid);
    } else {
      FailedParentKeepsDb(db, cid, newSync, clock);
      var db1 := db.(syncs := db.syncs[newSync := FailedParent(cid, clock)]);
      AppendLogKeepsDb(db1, newLog, LogRow(cid, codigo));
      HasCidGrows(db1, CommitErrorLog(db, cid, codigo, parentSeen, newSync, newLog, clock), cid);
    }
  }

  lemma ErrorLogIsNoDuplicate(db: Db, cid: Uuid, codigo: Codigo, parentSeen: bool,
                              newSync: Uuid, newLog: nat, clock: Clock)
    requires newLog !in db.logs && codigo != DuplicateBatch
    ensures forall c :: DuplicateLogs(CommitErrorLog(db, cid, codigo, parentSeen, newSync, newLog, clock), c)
                        == DuplicateLogs(db, c)
  {
  }

  /** A step that neither stores a file nor a duplicate log keeps the invariant when it
      keeps the tables consistent. */
  lemma DbStepKeepsInv(s: State, s': State, rid: Rid, req: Request)
    requires Inv(s) && rid in s.reqs && s'.reqs == s.reqs[rid := req]
    requires !Answered(s.reqs[rid]) && !Answered(req)
    requires Integrity(s'.db) && Lifecycle(s'.db) && Extends(s.db, s'.db) && RequestOk(s'.db, req)
    requires s'.db.archivos.Keys == s.db.archivos.Keys
    requires forall cid :: DuplicateLogs(s'.db, cid) == DuplicateLogs(s.db, cid)
    ensures Inv(s')
  {
    CountersKept(s, s', rid, req);
    OthersStayOk(s, s', rid, req);
    CreatorsKept(s, s');
    assert |s'.db.archivos| == |s'.db.archivos.Keys|;
    assert |s.db.archivos| == |s.db.archivos.Keys|;
  }

  lemma LoggedKeepsInv(s: State, rid: Rid, req: Request, newSync: Uuid, newLog: nat, clock: Clock)
    requires Inv(s) && rid in s.reqs && s.reqs[rid] == req && req.ErrorLog? && req.lph.LParent?
    requires newSync !in s.db.syncs && newLog !in s.db.logs && !LogClashes(s.db, req.cid, req.lph.seen)
    requires req.codigo != DuplicateBatch
    ensures Kept(s, Put(s, rid, req.(lph := LDone(true)))
                      .(db := CommitErrorLog(s.db, req.cid, req.codigo, req.lph.seen, newSync, newLog, clock)))
  {
    var db' := CommitErrorLog(s.db, req.cid, req.codigo, req.lph.seen, newSync, newLog, clock);
    ErrorLogKeepsDb(s.db, req.cid, req.codigo, req.lph.seen, newSync, newLog, clock);
    ErrorLogIsNoDuplicate(s.db, req.cid, req.codigo, req.lph.seen, newSync, newLog, clock);
    DbStepKeepsInv(s, State(db', s.reqs[rid := req.(lph := LDone(true))]), rid, req.(lph := LDone(true)));
  }

  lemma CommitLogKeepsInv(s: State, e: Event)
    requires Inv(s) && e.CommitLog?
    ensures Kept(s, Step(s, e))
  {
    var rid := e.rid;
    if rid in s.reqs && s.reqs[rid].ErrorLog? && s.reqs[rid].lph.LParent?
       && e.newSync !in s.db.syncs && e.newLog !in s.db.logs {
      var req := s.reqs[rid];
      assert RequestOk(s.db, req);
      if LogClashes(s.db, req.cid, req.lph.seen) {
        MoveKeepsInv(s, rid, req.(lph := LDone(false)));
      } else {
        LoggedKeepsInv(s, rid, req, e.newSync, e.newLog, e.clock);
      }
    }
  }

  /** A change of status columns only keeps the tables consistent. */
  lemma SameShapeIntegrity(db: Db, db': Db)
    requires Integrity(db) && Extends(db, db')
    requires db'.syncs.Keys == db.syncs.Keys && db'.archivos.Keys == db.archivos.Keys && db'.logs == db.logs
    requires forall k :: k in db'.acciones ==> db'.acciones[k].syncId in db'.syncs
    ensures Integrity(db')
    ensures forall id :: HasFile(db', id) == HasFile(db, id)
  {
    forall k | k in db'.logs ensures HasCid(db', db'.logs[k].cid) { HasCidGrows(db, db', db.logs[k].cid); }
    forall id ensures HasFile(db', id) == HasFile(db, id) {
      if HasFile(db, id) { HasFileGrows(db, db', id); }
      if HasFile(db', id) {
        var k :| k in db'.archivos && db'.archivos[k].syncId == id;
        assert k in db.archivos && db.archivos[k].syncId == id;
      }
    }
  }

  lemma RetriedExtends(db: Db, target: Uuid, read: Read)
    requires target in db.syncs
    ensures Extends(db, db.(syncs := db.syncs[target := RetriedSync(read, db.syncs[target])]))
  {
  }

  lemma AcceptedExtends(db: Db, files: set<nat>)
    ensures Extends(db, db.(archivos := AcceptFiles(db.archivos, files)))
    ensures AcceptFiles(db.archivos, files).Keys == db.archivos.Keys
  {
  }

  lemma RemediatedRows(db: Db, req: Request)
    requires req.Remediation? && req.rph.RReady? && req.target in db.syncs
    ensures var db' := Remediated(db, req);
      && Extends(db, db') && db'.syncs.Keys == db.syncs.Keys && db'.archivos.Keys == db.archivos.Keys
      && db'.logs == db.logs && db'.acciones == db.acciones
  {
    RetriedExtends(db, req.target, req.rph.read);
    AcceptedExtends(db, req.rph.rejected);
  }

  lemma AccionExtends(db: Db, db1: Db, newAccion: nat, row: AccionRow)
    requires Extends(db, db1) && db1.acciones == db.acciones && newAccion !in db.acciones
    ensures Extends(db, db1.(acciones := db.acciones[newAccion := row]))
  {
  }

  lemma RemediatedExtends(db: Db, db': Db, req: Request, newAccion: nat, row: AccionRow)
    requires newAccion !in db.acciones
    requires req.Remediation? && req.rph.RReady? && req.target in db.syncs
    requires db' == Remediated(db, req).(acciones := db.acciones[newAccion := row])
    ensures Extends(db, db')
    ensures db'.syncs.Keys == db.syncs.Keys && db'.archivos.Keys == db.archivos.Keys && db'.logs == db.logs
  {
    RemediatedRows(db, req);
    AccionExtends(db, Remediated(db, req), newAccion, row);
  }

  lemma RemediatedLifecycle(db: Db, db': Db, req: Request)
    requires Lifecycle(db) && req.Remediation? && req.rph.RReady? && req.target in db.syncs
    requires db'.syncs == Remediated(db, req).syncs
    requires forall id :: HasFile(db', id) == HasFile(db, id)
    ensures Lifecycle(db')
  {
  }

  lemma RemediationIntegrity(db: Db, db': Db, req: Request, newAccion: nat, row: AccionRow)
    requires Integrity(db) && newAccion !in db.acciones
    requires req.Remediation? && req.rph.RReady? && req.target in db.syncs && row.syncId == req.target
    requires db' == Remediated(db, req).(acciones := db.acciones[newAccion := row])
    ensures Integrity(db')
    ensures forall id :: HasFile(db', id) == HasFile(db, id)
  {
    RemediatedExtends(db, db', req, newAccion, row);
    SameShapeIntegrity(db, db');
  }

  lemma RemediatedKeepsDb(db: Db, db': Db, req: Request, newAccion: nat, row: AccionRow)
    requires Integrity(db) && Lifecycle(db) && newAccion !in db.acciones
    requires req.Remediation? && req.rph.RReady? && req.target in db.syncs && row.syncId == req.target
    requires db' == Remediated(db, req).(acciones := db.acciones[newAccion := row])
    ensures Integrity(db') && Lifecycle(db') && Extends(db, db')
    ensures db'.archivos.Keys == db.archivos.Keys && db'.logs == db.logs
  {
    RemediatedExtends(db, db', req, newAccion, row);
    RemediationIntegrity(db, db', req, newAccion, row);
    RemediatedLifecycle(db, db', req);
  }

  lemma SameLogsSameDuplicates(db: Db, db': Db)
    requires db'.logs == db.logs
    ensures forall cid :: DuplicateLogs(db', cid) == DuplicateLogs(db, cid)
  {
  }

  lemma CommitRemediationKeepsInv(s: State, e: Event)
    requires Inv(s) && e.CommitRemediation?
    ensures Kept(s, Step(s, e))
  {
    var rid, newAccion := e.rid, e.newAccion;
    var s' := CommitRemediationStep(s, rid, newAccion);
    if s' != s {
      var req := s.reqs[rid];
      RemediatedKeepsDb(s.db, s'.db, req, newAccion, s'.db.acciones[newAccion]);
      SameLogsSameDuplicates(s.db, s'.db);
      DbStepKeepsInv(s, s', rid, req.(rph := RDone));
    }
  }

  // ----- every step, every run -----

  /** Every step of every request keeps the invariant and only extends the tables. */
  lemma StepKeepsInv(s: State, e: Event)
    requires Inv(s)
    ensures Kept(s, Step(s, e))
  {
    match e
    case Arrive(_, _) => ArriveKeepsInv(s, e);
    case SelectSync(_, _) => SelectSyncKeepsInv(s, e);
    case LoadFiles(_, _) => LoadFilesKeepsInv(s, e);
    case CommitIngest(_, _, _, _) => CommitIngestKeepsInv(s, e);
    case LookupCid(_, _) => LookupCidKeepsInv(s, e);
    case LookupDigest(_, _) => LookupDigestKeepsInv(s, e);
    case LoadOriginal(_, _) => LoadOriginalKeepsInv(s, e);
    case LogDuplicate(_, _) => LogDuplicateKeepsInv(s, e);
    case SelectParent(_) => SelectParentKeepsInv(s, e);
    case CommitLog(_, _, _, _) => CommitLogKeepsInv(s, e);
    case GetSync(_) => GetSyncKeepsInv(s, e);
    case GetFiles(_) => GetFilesKeepsInv(s, e);
    case CommitRemediation(_, _) => CommitRemediationKeepsInv(s, e);
    case Abort(_) => AbortKeepsInv(s, e);
  }

  lemma InitInv()
    ensures Inv(INIT)
  {
    assert Winners(INIT) == {};
    forall cid ensures |Replays(INIT, cid)| == |DuplicateLogs(INIT.db, cid)| {
      assert Replays(INIT, cid) == {};
      assert DuplicateLogs(INIT.db, cid) == {};
    }
  }

  lemma {:induction false} ExecKeepsInv(s: State, es: seq<Event>)
    requires Inv(s)
    ensures Inv(Exec(s, es))
    decreases |es|
  {
    if es != [] {
      StepKeepsInv(s, es[0]);
      ExecKeepsInv(Step(s, es[0]), es[1..]);
    }
  }

  /** The invariant holds in every state any run from the empty database reaches. */
  lemma RunKeepsInv(es: seq<Event>)
    ensures Inv(Exec(INIT, es))
  {
    InitInv();
    ExecKeepsInv(INIT, es);
  }
}
