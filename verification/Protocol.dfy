/** The concurrent service as a state machine: the committed tables and one entry per
    request, holding its program counter and what it has read. Every await on the
    database is one event; the event carries the answers the database chose. An event
    that is not possible in a state leaves it unchanged, so every sequence of events
    is a run and every interleaving is some sequence. */
module Protocol {
  import opened Basics
  import opened Tables

  type Rid = nat

  datatype IngestPhase =
    | Start                                          // before the pre-check SELECT
    | RowRead(read: Read)                            // sync row found, its files not loaded yet
    | PreChecked(existing: Option<Read>)             // no file seen, about to commit
    | Conflicted                                     // IntegrityError, rolled back
    | ByDigest                                       // look-up by correlation_id found nothing
    | OriginalRead(original: Read, viaDigest: bool)  // original row found, its files not loaded yet
    | Replaying(source: Read, key: nat, file: Archivo) // about to append the duplicate log
    | Created(body: Response, stored: nat)           // 201
    | Replayed(body: Response, replayOf: nat)        // 200
    | Reraised                                       // the IntegrityError propagates, 422
    | Aborted                                        // the request died at an await

  datatype LoggerPhase = LStart | LParent(seen: bool) | LDone(logged: bool) | LAborted

  datatype RemediationKind = Remediate | Record(exito: bool)

  datatype RemediationPhase =
    | RStart
    | RLoaded(read: Read)                      // sync loaded, files still to load
    | RReady(read: Read, rejected: set<nat>)   // about to commit
    | RDone | RUnknown | RUnsupported | RAborted

  datatype Request =
    | Ingest(batch: Batch, ph: IngestPhase)
    | ErrorLog(cid: Uuid, codigo: Codigo, lph: LoggerPhase)
    | Remediation(target: Uuid, accion: Accion, kind: RemediationKind, rph: RemediationPhase)

  datatype State = State(db: Db, reqs: map<Rid, Request>)

  const INIT := State(EMPTY_DB, map[])

  datatype Event =
    | Arrive(rid: Rid, req: Request)
    | SelectSync(rid: Rid, found: Option<Uuid>)
    | LoadFiles(rid: Rid, pick: Option<nat>)
    | CommitIngest(rid: Rid, newSync: Uuid, newFile: nat, clock: Clock)
    | LookupCid(rid: Rid, found: Option<Uuid>)
    | LookupDigest(rid: Rid, found: Option<Uuid>)
    | LoadOriginal(rid: Rid, pick: Option<nat>)
    | LogDuplicate(rid: Rid, newLog: nat)
    | SelectParent(rid: Rid)
    | CommitLog(rid: Rid, newSync: Uuid, newLog: nat, clock: Clock)
    | GetSync(rid: Rid)
    | GetFiles(rid: Rid)
    | CommitRemediation(rid: Rid, newAccion: nat)
    | Abort(rid: Rid)

  /** A request as it arrives. No code path raises DuplicateBatchError, so the error
      logger is never started with that code. */
  predicate Initial(req: Request) {
    match req
    case Ingest(_, ph) => ph == Start
    case ErrorLog(_, codigo, lph) => lph == LStart && codigo != DuplicateBatch
    case Remediation(_, _, _, rph) => rph == RStart
  }

  predicate Final(req: Request) {
    match req
    case Ingest(_, ph) => ph.Created? || ph.Replayed? || ph.Reraised? || ph.Aborted?
    case ErrorLog(_, _, lph) => lph.LDone? || lph.LAborted?
    case Remediation(_, _, _, rph) => rph.RDone? || rph.RUnknown? || rph.RUnsupported? || rph.RAborted?
  }

  predicate IsIngest(s: State, rid: Rid) {
    rid in s.reqs && s.reqs[rid].Ingest?
  }

  function Put(s: State, rid: Rid, req: Request): State {
    s.(reqs := s.reqs[rid := req])
  }

  function Move(s: State, rid: Rid, ph: IngestPhase): State
    requires IsIngest(s, rid)
  {
    Put(s, rid, s.reqs[rid].(ph := ph))
  }

  // ----- one function per await of ingest_batch and the functions it calls -----

  function SelectSyncStep(s: State, rid: Rid, found: Option<Uuid>): State {
    if IsIngest(s, rid) && s.reqs[rid].ph.Start? && FoundByCid(s.db, s.reqs[rid].batch.cid, found) then
      match found
      case None => Move(s, rid, PreChecked(None))
      case Some(id) => Move(s, rid, RowRead(Read(id, s.db.syncs[id])))
    else s
  }

  function LoadFilesStep(s: State, rid: Rid, pick: Option<nat>): State {
    if IsIngest(s, rid) && s.reqs[rid].ph.RowRead? && FirstFile(s.db, s.reqs[rid].ph.read.id, pick) then
      var read := s.reqs[rid].ph.read;
      match pick
      case None => Move(s, rid, PreChecked(Some(read)))
      case Some(k) => Move(s, rid, Replaying(read, k, s.db.archivos[k]))
    else s
  }

  predicate CommitEnabled(s: State, rid: Rid, newSync: Uuid, newFile: nat) {
    && IsIngest(s, rid) && s.reqs[rid].ph.PreChecked?
    && newSync !in s.db.syncs && newFile !in s.db.archivos
    && (s.reqs[rid].ph.existing.Some? ==> s.reqs[rid].ph.existing.value.id in s.db.syncs)
  }

  function CommitIngestStep(s: State, rid: Rid, newSync: Uuid, newFile: nat, clock: Clock): State {
    if CommitEnabled(s, rid, newSync, newFile) then
      var b, existing := s.reqs[rid].batch, s.reqs[rid].ph.existing;
      if BatchClashes(s.db, b, existing) then Move(s, rid, Conflicted)
      else
        // the 201 body is built from the session's own objects, not re-read
        var id := TargetId(existing, newSync);
        var body := ResponseOf(Read(id, CompletedSync(b, clock)), FileOf(b, id));
        Move(s, rid, Created(body, newFile)).(db := CommitBatch(s.db, b, existing, newSync, newFile, clock))
    else s
  }

  function LookupCidStep(s: State, rid: Rid, found: Option<Uuid>): State {
    if IsIngest(s, rid) && s.reqs[rid].ph.Conflicted? && FoundByCid(s.db, s.reqs[rid].batch.cid, found) then
      match found
      case None => Move(s, rid, ByDigest)
      case Some(id) => Move(s, rid, OriginalRead(Read(id, s.db.syncs[id]), false))
    else s
  }

  function LookupDigestStep(s: State, rid: Rid, found: Option<Uuid>): State {
    if IsIngest(s, rid) && s.reqs[rid].ph.ByDigest? && FoundByDigest(s.db, s.reqs[rid].batch.digest, found) then
      match found
      case None => Move(s, rid, Reraised)
      case Some(id) => Move(s, rid, OriginalRead(Read(id, s.db.syncs[id]), true))
    else s
  }

  function LoadOriginalStep(s: State, rid: Rid, pick: Option<nat>): State {
    if IsIngest(s, rid) && s.reqs[rid].ph.OriginalRead? && FirstFile(s.db, s.reqs[rid].ph.original.id, pick) then
      match pick
      case None => Move(s, rid, Reraised)
      case Some(k) => Move(s, rid, Replaying(s.reqs[rid].ph.original, k, s.db.archivos[k]))
    else s
  }

  function LogDuplicateStep(s: State, rid: Rid, newLog: nat): State {
    if IsIngest(s, rid) && s.reqs[rid].ph.Replaying? && newLog !in s.db.logs then
      var read, k, a := s.reqs[rid].ph.source, s.reqs[rid].ph.key, s.reqs[rid].ph.file;
      if HasCid(s.db, read.row.cid) then
        Move(s, rid, Replayed(ResponseOf(read, a), k))
          .(db := s.db.(logs := s.db.logs[newLog := LogRow(read.row.cid, DuplicateBatch)]))
      else Move(s, rid, Reraised)
    else s
  }

  // ----- persist_error_log -----

  function SelectParentStep(s: State, rid: Rid): State {
    if rid in s.reqs && s.reqs[rid].ErrorLog? && s.reqs[rid].lph.LStart? then
      Put(s, rid, s.reqs[rid].(lph := LParent(HasCid(s.db, s.reqs[rid].cid))))
    else s
  }

  /** The insert of the failed parent violates the unique index, or without a parent the
      log violates its foreign key; either exception is swallowed. */
  predicate LogClashes(db: Db, cid: Uuid, parentSeen: bool) {
    parentSeen != HasCid(db, cid)
  }

  function CommitLogStep(s: State, rid: Rid, newSync: Uuid, newLog: nat, clock: Clock): State {
    if rid in s.reqs && s.reqs[rid].ErrorLog? && s.reqs[rid].lph.LParent?
       && newSync !in s.db.syncs && newLog !in s.db.logs then
      var req := s.reqs[rid];
      if LogClashes(s.db, req.cid, req.lph.seen) then Put(s, rid, req.(lph := LDone(false)))
      else
        Put(s, rid, req.(lph := LDone(true)))
          .(db := CommitErrorLog(s.db, req.cid, req.codigo, req.lph.seen, newSync, newLog, clock))
    else s
  }

  // ----- remediate and create_remediation -----

  /** Where a remediation stands after it looked its sync up. */
  function AfterGet(db: Db, req: Request): RemediationPhase
    requires req.Remediation?
  {
    if req.target !in db.syncs then RUnknown
    else
      var read := Read(req.target, db.syncs[req.target]);
      if req.kind.Record? || req.accion == RetryJob then RReady(read, {})
      else if req.accion == ForceSkipValidation then RLoaded(read)
      else RUnsupported
  }

  function GetSyncStep(s: State, rid: Rid): State {
    if rid in s.reqs && s.reqs[rid].Remediation? && s.reqs[rid].rph.RStart? then
      Put(s, rid, s.reqs[rid].(rph := AfterGet(s.db, s.reqs[rid])))
    else s
  }

  function GetFilesStep(s: State, rid: Rid): State {
    if rid in s.reqs && s.reqs[rid].Remediation? && s.reqs[rid].rph.RLoaded? then
      var req := s.reqs[rid];
      Put(s, rid, req.(rph := RReady(req.rph.read, RejectedFiles(s.db.archivos, req.target))))
    else s
  }

  function Remediated(db: Db, req: Request): Db
    requires req.Remediation? && req.rph.RReady? && req.target in db.syncs
  {
    if req.kind.Record? then db
    else if req.accion == RetryJob then
      db.(syncs := db.syncs[req.target := RetriedSync(req.rph.read, db.syncs[req.target])])
    else db.(archivos := AcceptFiles(db.archivos, req.rph.rejected))
  }

  function CommitRemediationStep(s: State, rid: Rid, newAccion: nat): State {
    if rid in s.reqs && s.reqs[rid].Remediation? && s.reqs[rid].rph.RReady?
       && newAccion !in s.db.acciones && s.reqs[rid].target in s.db.syncs then
      var req := s.reqs[rid];
      var row := AccionRow(req.target, req.accion, if req.kind.Record? then req.kind.exito else true);
      Put(s, rid, req.(rph := RDone))
        .(db := Remediated(s.db, req).(acciones := s.db.acciones[newAccion := row]))
    else s
  }

  /** A request dies at an await (outage, cancellation) before that await has an effect. */
  function AbortStep(s: State, rid: Rid): State {
    if rid in s.reqs && !Final(s.reqs[rid]) then
      match s.reqs[rid]
      case Ingest(_, _) => Move(s, rid, Aborted)
      case ErrorLog(_, _, _) => Put(s, rid, s.reqs[rid].(lph := LAborted))
      case Remediation(_, _, _, _) => Put(s, rid, s.reqs[rid].(rph := RAborted))
    else s
  }

  function ArriveStep(s: State, rid: Rid, req: Request): State {
    if rid !in s.reqs && Initial(req) then Put(s, rid, req) else s
  }

  function Step(s: State, e: Event): State {
    match e
    case Arrive(rid, req) => ArriveStep(s, rid, req)
    case SelectSync(rid, found) => SelectSyncStep(s, rid, found)
    case LoadFiles(rid, pick) => LoadFilesStep(s, rid, pick)
    case CommitIngest(rid, newSync, newFile, clock) => CommitIngestStep(s, rid, newSync, newFile, clock)
    case LookupCid(rid, found) => LookupCidStep(s, rid, found)
    case LookupDigest(rid, found) => LookupDigestStep(s, rid, found)
    case LoadOriginal(rid, pick) => LoadOriginalStep(s, rid, pick)
    case LogDuplicate(rid, newLog) => LogDuplicateStep(s, rid, newLog)
    case SelectParent(rid) => SelectParentStep(s, rid)
    case CommitLog(rid, newSync, newLog, clock) => CommitLogStep(s, rid, newSync, newLog, clock)
    case GetSync(rid) => GetSyncStep(s, rid)
    case GetFiles(rid) => GetFilesStep(s, rid)
    case CommitRemediation(rid, newAccion) => CommitRemediationStep(s, rid, newAccion)
    case Abort(rid) => AbortStep(s, rid)
  }

  /** Only the entry of `rid` may differ. */
  ghost predicate SameOthers(s: State, s': State, rid: Rid) {
    && (forall r :: r != rid ==> (r in s'.reqs <==> r in s.reqs))
    && (forall r :: r != rid && r in s.reqs ==> s'.reqs[r] == s.reqs[r])
  }

  /** A step touches the entry of its own request only. */
  lemma StepTouchesOwn(s: State, e: Event)
    ensures SameOthers(s, Step(s, e), e.rid)
  {
  }

  /** No event of a finished request does anything. */
  lemma FinishedStays(s: State, e: Event)
    requires e.rid in s.reqs && Final(s.reqs[e.rid])
    ensures Step(s, e) == s
  {
  }

  /** No step changes what a request was sent with. */
  lemma BatchStays(s: State, e: Event, rid: Rid)
    requires IsIngest(s, rid)
    ensures IsIngest(Step(s, e), rid) && Step(s, e).reqs[rid].batch == s.reqs[rid].batch
  {
  }

  /** The state after a run of events. */
  function Exec(s: State, es: seq<Event>): State
    decreases |es|
  {
    if es == [] then s else Exec(Step(s, es[0]), es[1..])
  }

  lemma {:induction false} ExecAppend(s: State, xs: seq<Event>, ys: seq<Event>)
    ensures Exec(s, xs + ys) == Exec(Exec(s, xs), ys)
    decreases |xs|
  {
    if xs == [] {
      assert xs + ys == ys;
    } else {
      assert (xs + ys)[1..] == xs[1..] + ys;
      ExecAppend(Step(s, xs[0]), xs[1..], ys);
    }
  }

  lemma ExecSnoc(s: State, es: seq<Event>, e: Event)
    ensures Exec(s, es + [e]) == Step(Exec(s, es), e)
  {
    ExecAppend(s, es, [e]);
    assert Exec(Exec(s, es), [e]) == Exec(Step(Exec(s, es), e), []);
  }

  lemma ExecTwo(s: State, e: Event, f: Event)
    ensures Exec(s, [e, f]) == Step(Step(s, e), f)
  {
    assert [e, f][1..] == [f];
    assert Exec(Step(s, e), [f]) == Exec(Step(Step(s, e), f), []);
  }
}
