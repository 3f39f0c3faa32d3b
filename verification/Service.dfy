/** The service as the code writes it: objects whose fields the coroutines update, with other
    requests running at every await. Each method is proved against the state machine, so
    what the other modules prove about every run holds of it. */
module Service {
  import opened Basics
  import opened Tables
  import opened Protocol
  import opened Invariants
  import opened LifecycleRuns
  import opened ConflictBranch
  import opened Idempotency
  import SyncSummary

  /** What `ingest_batch` gives its caller. */
  datatype Outcome = Http(status: int, body: Response) | IntegrityViolation

  /** The answer a finished ingest request stands for. */
  ghost predicate OutcomeOf(ph: IngestPhase, out: Outcome) {
    match ph
    case Created(body, _) => out == Http(201, body)
    case Replayed(body, _) => out == Http(200, body)
    case Reraised => out == IntegrityViolation
    case _ => false
  }

  /** The events of a run that belong to other requests. */
  function Foreign(es: seq<Event>, rid: Rid): seq<Event> {
    if es == [] then []
    else if es[0].rid == rid then Foreign(es[1..], rid)
    else [es[0]] + Foreign(es[1..], rid)
  }

  lemma {:induction false} ForeignAppend(xs: seq<Event>, ys: seq<Event>, rid: Rid)
    ensures Foreign(xs + ys, rid) == Foreign(xs, rid) + Foreign(ys, rid)
  {
    if xs == [] {
      assert xs + ys == ys;
    } else {
      assert (xs + ys)[1..] == xs[1..] + ys;
      ForeignAppend(xs[1..], ys, rid);
    }
  }

  ghost predicate OfOthers(es: seq<Event>, rid: Rid) {
    forall e :: e in es ==> e.rid != rid
  }

  lemma {:induction false} ForeignOfOthers(es: seq<Event>, rid: Rid)
    requires OfOthers(es, rid)
    ensures Foreign(es, rid) == es
  {
    if es != [] { ForeignOfOthers(es[1..], rid); }
  }

  /** No event of another request touches this one's entry. */
  lemma StepLeavesOthers(s: State, e: Event, rid: Rid)
    requires e.rid != rid && rid in s.reqs
    ensures rid in Step(s, e).reqs && Step(s, e).reqs[rid] == s.reqs[rid]
  {
  }

  lemma {:induction false} ExecLeavesOthers(s: State, es: seq<Event>, rid: Rid)
    requires OfOthers(es, rid) && rid in s.reqs
    ensures rid in Exec(s, es).reqs && Exec(s, es).reqs[rid] == s.reqs[rid]
    decreases |es|
  {
    if es != [] {
      StepLeavesOthers(s, es[0], rid);
      ExecLeavesOthers(Step(s, es[0]), es[1..], rid);
    }
  }

  // ----- what the invariant gives a running request -----

  lemma PreCheckedRowStays(es: seq<Event>, rid: Rid)
    requires var s := Exec(INIT, es); IsIngest(s, rid) && s.reqs[rid].ph.PreChecked?
    ensures var s := Exec(INIT, es);
      s.reqs[rid].ph.existing.Some? ==> s.reqs[rid].ph.existing.value.id in s.db.syncs
  {
    RunKeepsInv(es);
    assert RequestOk(Exec(INIT, es).db, Exec(INIT, es).reqs[rid]);
  }

  /** The sync of a correlation_id owns the files of that correlation_id. */
  lemma FilesOfCid(es: seq<Event>, cid: Uuid)
    ensures var db := Exec(INIT, es).db;
      && (forall id :: id in db.syncs && db.syncs[id].cid == cid ==>
            (HasFile(db, id) <==> CidHasFile(db, cid)) && (HasFile(db, id) <==> !FilelessParent(db, cid)))
      && (!HasCid(db, cid) ==> !CidHasFile(db, cid) && !FilelessParent(db, cid))
      && (forall id, d :: OwnsDigest(db, id, d) ==> HasFile(db, id))
  {
    var db := Exec(INIT, es).db;
    RunKeepsInv(es);
    forall id | id in db.syncs && db.syncs[id].cid == cid
      ensures (HasFile(db, id) <==> CidHasFile(db, cid)) && (HasFile(db, id) <==> !FilelessParent(db, cid))
    {
      FilelessParentIs(db, cid, id);
      if HasFile(db, id) {
        var k :| k in db.archivos && db.archivos[k].syncId == id;
        assert FileHasCid(db, k, cid);
      }
      if CidHasFile(db, cid) { PreCheckHits(Exec(INIT, es), id, cid); }
    }
  }

  lemma ReplayedRowStays(es: seq<Event>, rid: Rid)
    requires var s := Exec(INIT, es); IsIngest(s, rid) && s.reqs[rid].ph.Replaying?
    ensures var s := Exec(INIT, es); HasCid(s.db, s.reqs[rid].ph.source.row.cid)
  {
    RunKeepsInv(es);
    ReplaySourceStays(Exec(INIT, es), rid);
  }

  lemma DigestLookupStays(es: seq<Event>, rid: Rid)
    requires var s := Exec(INIT, es); IsIngest(s, rid) && s.reqs[rid].ph.ByDigest?
    ensures var s := Exec(INIT, es);
      && !FoundByDigest(s.db, s.reqs[rid].batch.digest, None)
      && forall k :: k in s.db.archivos ==> s.db.archivos[k].syncId in s.db.syncs
  {
    RunKeepsInv(es);
    DigestLookupHits(Exec(INIT, es), rid);
  }

  lemma RemediationTargetStays(es: seq<Event>, rid: Rid)
    requires var s := Exec(INIT, es); rid in s.reqs && s.reqs[rid].Remediation? && s.reqs[rid].rph.RReady?
    ensures var s := Exec(INIT, es); s.reqs[rid].target in s.db.syncs
  {
    RunKeepsInv(es);
    assert RequestOk(Exec(INIT, es).db, Exec(INIT, es).reqs[rid]);
  }

  /** A primary key no row uses, as uuid4 and the serial columns provide. */
  method FreshKey(keys: set<nat>) returns (k: nat)
    ensures k !in keys
  {
    k := 0;
    var above := keys;
    while k in above
      invariant above <= keys
      invariant forall j :: j in keys && j !in above ==> j < k
      decreases above
    {
      above := above - {k};
      k := k + 1;
    }
  }

  /** The remediation that loads and accepts files. */
  predicate Skips(accion: Accion, kind: RemediationKind) {
    kind.Remediate? && accion == ForceSkipValidation
  }

  /** What a remediation does to tables nobody else changes meanwhile. */
  ghost predicate RemediatedAlone(db: Db, db': Db, target: Uuid, accion: Accion, kind: RemediationKind)
    requires target in db.syncs
  {
    && db'.syncs == (if kind.Remediate? && accion == RetryJob
                     then db.syncs[target := db.syncs[target].(estado := Running, finalizado := None)] else db.syncs)
    && db'.archivos.Keys == db.archivos.Keys
    && (forall k :: k in db.archivos ==>
          var skipped := kind.Remediate? && accion == ForceSkipValidation && db.archivos[k].syncId == target;
          db'.archivos[k] == if skipped then db.archivos[k].(estado := Accepted) else db.archivos[k])
    && db'.logs == db.logs
    && (exists n: nat :: n !in db.acciones
          && db'.acciones == db.acciones[n := AccionRow(target, accion, kind.Record? ==> kind.exito)])
  }

  /** The tables after a duplicate was logged under `cid`, and nothing else was done. */
  ghost predicate DuplicateLogged(db: Db, db': Db, cid: Uuid) {
    && db'.syncs == db.syncs && db'.archivos == db.archivos && db'.acciones == db.acciones
    && exists n: nat :: n !in db.logs && db'.logs == db.logs[n := LogRow(cid, DuplicateBatch)]
  }

  /** The tables after `b` was stored, and nothing else was done, with the body that says so. */
  ghost predicate StoredAlone(db: Db, db': Db, b: Batch, clock: Clock, body: Response) {
    && body == Response(b.cid, body.syncId, Completed, b.nombre, b.tipo, b.digest, b.registros)
    && db'.syncs == db.syncs[body.syncId := Sync(cid := b.cid, fecha := clock.today, estado := Completed,
                                                 iniciado := clock.iniciado, finalizado := Some(clock.finalizado))]
    && (exists k: nat :: k !in db.archivos
          && db'.archivos == db.archivos[k := Archivo(syncId := body.syncId, nombre := b.nombre, tipo := b.tipo,
                                                      digest := b.digest, estado := Accepted,
                                                      registros := b.registros)])
    && db'.logs == db.logs && db'.acciones == db.acciones
  }

  /** What a conflict leads to: nothing, or a duplicate logged and answered under the correlation_id of the
      request exactly when that is stored. */
  ghost predicate ConflictAlone(db: Db, db': Db, b: Batch, out: Outcome) {
    match out
    case IntegrityViolation => db' == db
    case Http(_, body) => DuplicateLogged(db, db', body.cid) && (body.cid == b.cid <==> HasCid(db, b.cid))
  }

  /** What `ingest_batch` answers and does with nobody else running. */
  ghost predicate IngestedAlone(db: Db, db': Db, b: Batch, clock: Clock, out: Outcome) {
    && (out.Http? && out.status == 201 <==> !CidHasFile(db, b.cid) && !HasDigest(db, b.digest))
    && (out == IntegrityViolation <==> FilelessParent(db, b.cid) && HasDigest(db, b.digest))
    && (if out.Http? && out.status == 201 then StoredAlone(db, db', b, clock, out.body)
        else ConflictAlone(db, db', b, out))
  }

  /** `id` was added as the failed parent of `cid`, started now and unfinished. */
  ghost predicate ParentAdded(db: Db, db': Db, id: Uuid, cid: Uuid, clock: Clock) {
    db'.syncs == db.syncs[id := Sync(cid := cid, fecha := clock.today, estado := Failed,
                                     iniciado := clock.iniciado, finalizado := None)]
  }

  /** The tables after an error was logged, and nothing else was done. */
  ghost predicate ErrorLogged(db: Db, db': Db, cid: Uuid, codigo: Codigo, clock: Clock) {
    && (if HasCid(db, cid) then db'.syncs == db.syncs
        else exists id: nat :: id !in db.syncs && ParentAdded(db, db', id, cid, clock))
    && (exists n: nat :: n !in db.logs && db'.logs == db.logs[n := LogRow(cid, codigo)])
    && db'.archivos == db.archivos && db'.acciones == db.acciones
  }

  /** What a remediation answers: 404, a ValueError, the item of the sync with its summary, or the recorded
      action with the correlation_id of its sync. */
  datatype RemediationAnswer =
    | NotFound
    | UnsupportedAction
    | SyncItem(sync: Read, resumen: SyncSummary.Resumen)
    | ActionItem(id: nat, row: AccionRow, cid: Uuid)

  ghost function PhaseOf(answer: RemediationAnswer): RemediationPhase {
    match answer
    case NotFound => RUnknown
    case UnsupportedAction => RUnsupported
    case _ => RDone
  }

  function ActionRowOf(target: Uuid, accion: Accion, kind: RemediationKind): AccionRow {
    AccionRow(target, accion, if kind.Record? then kind.exito else true)
  }

  /** What the session of a remediation holds after it set the columns. */
  function RemediatedRow(row: Sync, accion: Accion): Sync {
    if accion == RetryJob then row.(estado := Running, finalizado := None) else row
  }

  /** The commit of a remediation that read the current row and files. */
  lemma RemediatedFresh(db: Db, db': Db, target: Uuid, accion: Accion, kind: RemediationKind,
                        rejected: set<nat>, n: nat)
    requires target in db.syncs && n !in db.acciones && db'.logs == db.logs
    requires db'.acciones == db.acciones[n := ActionRowOf(target, accion, kind)]
    requires db'.syncs == if kind.Remediate? && accion == RetryJob
                          then db.syncs[target := RetriedSync(Read(target, db.syncs[target]), db.syncs[target])]
                          else db.syncs
    requires db'.archivos == if Skips(accion, kind)
                             then AcceptFiles(db.archivos, rejected) else db.archivos
    requires Skips(accion, kind) ==> rejected == RejectedFiles(db.archivos, target)
    ensures RemediatedAlone(db, db', target, accion, kind)
  {
  }

  /** What is left of `pending` events when up to `turns` of them have run. */
  function Left(pending: nat, turns: nat): nat {
    if turns <= pending then pending - turns else 0
  }

  class Server {
    var syncs: map<Uuid, Sync>
    var archivos: map<nat, Archivo>
    var logs: map<nat, LogRow>
    var acciones: map<nat, AccionRow>
    var reqs: map<Rid, Request>
    var pending: seq<Event>       // what other requests will do while this one waits
    ghost var history: seq<Event> // what all requests have done

    function View(): State
      reads this
    {
      State(Db(syncs, archivos, logs, acciones), reqs)
    }

    /** The server is in the state its history leads to. */
    ghost predicate Valid()
      reads this
    {
      View() == Exec(INIT, history)
    }

    constructor (others: seq<Event>)
      ensures Valid() && View() == INIT && history == [] && pending == others
    {
      syncs, archivos, logs, acciones, reqs := map[], map[], map[], map[], map[];
      pending := others;
      history := [];
    }

    ghost method Note(e: Event)
      modifies this`history
      ensures history == old(history) + [e]
      ensures Exec(INIT, history) == Step(Exec(INIT, old(history)), e)
      ensures Foreign(history, e.rid) == Foreign(old(history), e.rid)
    {
      ExecSnoc(INIT, history, e);
      ForeignAppend(history, [e], e.rid);
      history := history + [e];
    }

    /** What a stretch of the code of request `rid` keeps: the server stays in step with the machine,
        and the others did exactly the part of their plan that is no longer pending. */
    twostate predicate Steady(rid: Rid)
      reads this
    {
      && Valid() && rid in reqs && OfOthers(pending, rid) && old(history) <= history
      && Foreign(history, rid) + pending == Foreign(old(history), rid) + old(pending)
    }

    ghost predicate Ready(rid: Rid)
      reads this
    {
      Valid() && rid in reqs && OfOthers(pending, rid)
    }

    method Yield(e: Event, ghost rid: Rid)
      requires Ready(rid) && pending != [] && e == pending[0]
      modifies this
      ensures Steady(rid) && reqs[rid] == old(reqs[rid]) && pending == old(pending)[1..]
    {
      var s := Step(View(), e);
      StepLeavesOthers(View(), e, rid);
      ForeignAppend(history, [e], rid);
      ForeignOfOthers([e], rid);
      Note(e);
      syncs, archivos, logs, acciones, reqs := s.db.syncs, s.db.archivos, s.db.logs, s.db.acciones, s.reqs;
      pending := pending[1..];
      assert [e] + pending == old(pending);
    }

    /** An await: up to `turns` events of other requests run before this one goes on. */
    method Await(turns: nat, ghost rid: Rid)
      requires Ready(rid)
      modifies this
      ensures Steady(rid) && reqs[rid] == old(reqs[rid])
      ensures |pending| == Left(|old(pending)|, turns)
      ensures old(pending) == [] ==> View() == old(View())
    {
      var n := if turns <= |pending| then turns else |pending|;
      for i := 0 to n
        invariant Steady(rid) && reqs[rid] == old(reqs[rid]) && |pending| == |old(pending)| - i
        invariant i == 0 ==> View() == old(View())
      {
        var e := pending[0];
        Yield(e, rid);
      }
    }

    // ----- queries -----

    method QueryByCid(cid: Uuid) returns (found: Option<Uuid>)
      ensures FoundByCid(View().db, cid, found)
    {
      found := None;
      if id :| id in syncs && syncs[id].cid == cid { found := Some(id); }
    }

    method QueryByDigest(d: Digest) returns (found: Option<Uuid>)
      requires forall k :: k in archivos ==> archivos[k].syncId in syncs
      ensures FoundByDigest(View().db, d, found)
    {
      found := None;
      if k :| k in archivos && archivos[k].digest == d {
        found := Some(archivos[k].syncId);
        assert OwnsDigest(View().db, archivos[k].syncId, d);
      }
    }

    method QueryFirstFile(id: Uuid) returns (pick: Option<nat>)
      ensures FirstFile(View().db, id, pick)
    {
      pick := None;
      if k :| k in archivos && archivos[k].syncId == id { pick := Some(k); }
    }

    // ----- ingest_batch -----

    /** The pre-check SELECT. */
    method SelectSync(rid: Rid, b: Batch) returns (row: Option<Read>)
      requires Ready(rid) && reqs[rid] == Ingest(b, Start)
      modifies this`reqs, this`history
      ensures Steady(rid)
      ensures reqs[rid] == Ingest(b, if row.None? then PreChecked(None) else RowRead(row.value))
      ensures FoundByCid(View().db, b.cid, if row.None? then None else Some(row.value.id))
      ensures row.Some? ==> row.value.row == syncs[row.value.id]
    {
      var found := QueryByCid(b.cid);
      Note(Event.SelectSync(rid, found));
      if found.Some? {
        row := Some(Read(found.value, syncs[found.value]));
        reqs := reqs[rid := Ingest(b, RowRead(row.value))];
      } else {
        row := None;
        reqs := reqs[rid := Ingest(b, PreChecked(None))];
      }
    }

    /** The SELECT that loads the files of the row found. */
    method LoadFiles(rid: Rid, b: Batch, row: Read) returns (first: Option<nat>)
      requires Ready(rid) && reqs[rid] == Ingest(b, RowRead(row))
      modifies this`reqs, this`history
      ensures Steady(rid)
      ensures FirstFile(View().db, row.id, first)
      ensures first.None? ==> reqs[rid] == Ingest(b, PreChecked(Some(row)))
      ensures first.Some? ==>
        first.value in archivos && reqs[rid] == Ingest(b, Replaying(row, first.value, archivos[first.value]))
    {
      first := QueryFirstFile(row.id);
      Note(Event.LoadFiles(rid, first));
      if first.Some? {
        reqs := reqs[rid := Ingest(b, Replaying(row, first.value, archivos[first.value]))];
      } else {
        reqs := reqs[rid := Ingest(b, PreChecked(Some(row)))];
      }
    }

    /** The commit of sync and archivo in one transaction; not ok is an IntegrityError. */
    method CommitSyncAndFile(rid: Rid, b: Batch, existing: Option<Read>, clock: Clock)
      returns (ok: bool, key: nat, body: Response)
      requires Ready(rid) && reqs[rid] == Ingest(b, PreChecked(existing))
      modifies this`syncs, this`archivos, this`reqs, this`history
      ensures Steady(rid) && logs == old(logs) && acciones == old(acciones)
      ensures ok <==> !BatchClashes(old(View()).db, b, existing)
      ensures key !in old(archivos)
      ensures ok ==> reqs[rid] == Ingest(b, Created(body, key))
      ensures ok ==> archivos == old(archivos)[key := FileOf(b, body.syncId)]
      ensures ok ==> body == Response(b.cid, body.syncId, Completed, b.nombre, b.tipo, b.digest, b.registros)
      ensures existing.Some? ==> existing.value.id in old(syncs) && body.syncId == existing.value.id
      ensures existing.None? ==> body.syncId !in old(syncs)
      ensures ok ==> syncs == old(syncs)[body.syncId := CommittedSync(old(View()).db, b, existing, clock)]
      ensures ok && existing.None? ==>
        syncs[body.syncId] == Sync(cid := b.cid, fecha := clock.today, estado := Completed,
                                   iniciado := clock.iniciado, finalizado := Some(clock.finalizado))
      ensures ok && existing.Some? ==>
        ColumnsWritten(existing.value.row, old(syncs)[body.syncId], syncs[body.syncId], clock)
      ensures !ok ==> reqs[rid] == Ingest(b, Conflicted) && syncs == old(syncs) && archivos == old(archivos)
    {
      PreCheckedRowStays(history, rid);
      var newSync := FreshKey(syncs.Keys);
      key := FreshKey(archivos.Keys);
      ok := !BatchClashes(View().db, b, existing);
      Note(CommitIngest(rid, newSync, key, clock));
      var id := newSync;
      if existing.Some? {
        id := existing.value.id;
      }
      body := Response(b.cid, id, Completed, b.nombre, b.tipo, b.digest, b.registros);
      if ok {
        syncs := syncs[id := CommittedSync(View().db, b, existing, clock)];
        archivos := archivos[key := Archivo(id, b.nombre, b.tipo, b.digest, Accepted, b.registros)];
        reqs := reqs[rid := Ingest(b, Created(body, key))];
      } else {
        reqs := reqs[rid := Ingest(b, Conflicted)];
      }
    }

    /** The first SELECT of `_load_original`. */
    method LookupCid(rid: Rid, b: Batch) returns (row: Option<Read>)
      requires Ready(rid) && reqs[rid] == Ingest(b, Conflicted)
      modifies this`reqs, this`history
      ensures Steady(rid)
      ensures reqs[rid] == Ingest(b, if row.None? then ByDigest else OriginalRead(row.value, false))
      ensures row.Some? ==> row.value.id in syncs && row.value.row == syncs[row.value.id]
      ensures FoundByCid(View().db, b.cid, if row.None? then None else Some(row.value.id))
    {
      var found := QueryByCid(b.cid);
      Note(Event.LookupCid(rid, found));
      if found.Some? {
        row := Some(Read(found.value, syncs[found.value]));
        reqs := reqs[rid := Ingest(b, OriginalRead(row.value, false))];
      } else {
        row := None;
        reqs := reqs[rid := Ingest(b, ByDigest)];
      }
    }

    /** Its fallback SELECT by checksum, which always finds a row. */
    method LookupDigest(rid: Rid, b: Batch) returns (row: Read)
      requires Ready(rid) && reqs[rid] == Ingest(b, ByDigest)
      modifies this`reqs, this`history
      ensures Steady(rid) && reqs[rid] == Ingest(b, OriginalRead(row, true))
      ensures row.id in syncs && row.row == syncs[row.id] && OwnsDigest(View().db, row.id, b.digest)
    {
      DigestLookupStays(history, rid);
      var found := QueryByDigest(b.digest);
      Note(Event.LookupDigest(rid, found));
      row := Read(found.value, syncs[found.value]);
      reqs := reqs[rid := Ingest(b, OriginalRead(row, true))];
    }

    /** The SELECT that loads the files of the original. */
    method LoadOriginal(rid: Rid, b: Batch, row: Read, viaDigest: bool) returns (first: Option<nat>)
      requires Ready(rid) && reqs[rid] == Ingest(b, OriginalRead(row, viaDigest))
      modifies this`reqs, this`history
      ensures Steady(rid)
      ensures FirstFile(View().db, row.id, first)
      ensures first.None? ==> reqs[rid] == Ingest(b, Reraised)
      ensures first.Some? ==>
        first.value in archivos && reqs[rid] == Ingest(b, Replaying(row, first.value, archivos[first.value]))
    {
      first := QueryFirstFile(row.id);
      Note(Event.LoadOriginal(rid, first));
      if first.Some? {
        reqs := reqs[rid := Ingest(b, Replaying(row, first.value, archivos[first.value]))];
      } else {
        reqs := reqs[rid := Ingest(b, Reraised)];
      }
    }

    /** `_persist_duplicate_log` and the 200 that follows it. */
    method Replay(rid: Rid, b: Batch, source: Read, key: nat, file: Archivo) returns (body: Response)
      requires Ready(rid) && reqs[rid] == Ingest(b, Replaying(source, key, file))
      modifies this`logs, this`reqs, this`history
      ensures Steady(rid) && reqs[rid] == Ingest(b, Replayed(body, key)) && body == ResponseOf(source, file)
      ensures exists n: nat :: n !in old(logs) && logs == old(logs)[n := LogRow(body.cid, DuplicateBatch)]
    {
      ReplayedRowStays(history, rid);
      var newLog := FreshKey(logs.Keys);
      Note(LogDuplicate(rid, newLog));
      logs := logs[newLog := LogRow(source.row.cid, DuplicateBatch)];
      body := ResponseOf(source, file);
      reqs := reqs[rid := Ingest(b, Replayed(body, key))];
    }

    /** What the pre-check found is what the tables hold. */
    ghost predicate ExistingAlone(existing: Option<Read>, cid: Uuid)
      reads this
    {
      match existing
      case None => !HasCid(View().db, cid)
      case Some(read) => read.id in syncs && read.row == syncs[read.id] && read.row.cid == cid
    }

    method ReplayAfter(turns: nat, rid: Rid, b: Batch, source: Read, key: nat, file: Archivo) returns (body: Response)
      requires Ready(rid) && reqs[rid] == Ingest(b, Replaying(source, key, file))
      modifies this
      ensures Steady(rid) && reqs[rid] == Ingest(b, Replayed(body, key)) && body == ResponseOf(source, file)
      ensures |pending| == Left(|old(pending)|, turns)
      ensures old(pending) == [] ==> DuplicateLogged(old(View()).db, View().db, body.cid)
    {
      Await(turns, rid);
      body := Replay(rid, b, source, key, file);
    }

    /** The pre-check of a sync that exists: its files decide. */
    method LoadOrReplay(rid: Rid, b: Batch, row: Read, turns: seq<nat>) returns (replay: Option<Response>)
      requires Ready(rid) && reqs[rid] == Ingest(b, RowRead(row)) && |turns| == 2
      modifies this
      ensures Steady(rid)
      ensures match replay
        case Some(body) =>
          && reqs[rid].Ingest? && reqs[rid].batch == b && OutcomeOf(reqs[rid].ph, Http(200, body))
          && body.cid == row.row.cid
        case None => reqs[rid] == Ingest(b, PreChecked(Some(row)))
      ensures |pending| == Left(|old(pending)|, turns[0] + if replay.Some? then turns[1] else 0)
      ensures old(pending) == [] ==> (replay.Some? <==> HasFile(old(View()).db, row.id))
      ensures old(pending) == [] && replay.Some? ==> DuplicateLogged(old(View()).db, View().db, row.row.cid)
      ensures old(pending) == [] && replay.None? ==> pending == [] && View().db == old(View()).db
    {
      Await(turns[0], rid);
      var first := LoadFiles(rid, b, row);
      if first.None? {
        return None;
      }
      var body := ReplayAfter(turns[1], rid, b, row, first.value, archivos[first.value]);
      replay := Some(body);
    }

    /** The pre-check: the sync to update, if any, or a replay that is already answered. */
    method PreCheck(rid: Rid, b: Batch, turns: seq<nat>) returns (existing: Option<Read>, replay: Option<Response>)
      requires Ready(rid) && reqs[rid] == Ingest(b, Start) && |turns| == 3
      modifies this
      ensures Steady(rid)
      ensures match replay
        case Some(body) => reqs[rid].Ingest? && reqs[rid].batch == b && OutcomeOf(reqs[rid].ph, Http(200, body))
        case None => reqs[rid] == Ingest(b, PreChecked(existing))
      ensures |pending| == Left(|old(pending)|, turns[0] + (if existing.Some? then turns[1] else 0)
                                                + (if replay.Some? then turns[2] else 0))
      ensures old(pending) == [] ==> (replay.Some? <==> CidHasFile(old(View()).db, b.cid))
      ensures old(pending) == [] && replay.Some? ==>
        replay.value.cid == b.cid && DuplicateLogged(old(View()).db, View().db, b.cid)
      ensures old(pending) == [] && replay.None? ==>
        pending == [] && View().db == old(View()).db && ExistingAlone(existing, b.cid)
    {
      FilesOfCid(history, b.cid);
      replay := None;
      Await(turns[0], rid);
      existing := SelectSync(rid, b);
      if existing.Some? {
        replay := LoadOrReplay(rid, b, existing.value, turns[1..]);
      }
    }

    /** `_load_original` up to its files. */
    method FindOriginal(rid: Rid, b: Batch, turns: seq<nat>) returns (row: Read, viaDigest: bool)
      requires Ready(rid) && reqs[rid] == Ingest(b, Conflicted) && |turns| == 2
      modifies this
      ensures Steady(rid) && reqs[rid] == Ingest(b, OriginalRead(row, viaDigest))
      ensures |pending| == Left(|old(pending)|, turns[0] + if viaDigest then turns[1] else 0)
      ensures if viaDigest then OwnsDigest(View().db, row.id, b.digest) else row.row.cid == b.cid
      ensures row.id in syncs && syncs[row.id].cid == row.row.cid
      ensures old(pending) == [] ==>
        && pending == [] && View().db == old(View()).db && (viaDigest <==> !HasCid(View().db, b.cid))
        && (FilelessParent(View().db, b.cid) <==> !HasFile(View().db, row.id))
    {
      FilesOfCid(history, b.cid);
      Await(turns[0], rid);
      var byCid := LookupCid(rid, b);
      if byCid.Some? {
        return byCid.value, false;
      }
      Await(turns[1], rid);
      row := LookupDigest(rid, b);
      viaDigest := true;
    }

    /** The `except IntegrityError` branch. */
    method ResolveConflict(rid: Rid, b: Batch, turns: seq<nat>) returns (out: Outcome)
      requires Ready(rid) && reqs[rid] == Ingest(b, Conflicted) && |turns| == 4
      modifies this
      ensures Steady(rid) && reqs[rid].Ingest? && reqs[rid].batch == b && OutcomeOf(reqs[rid].ph, out)
      ensures out.Http? ==> out.status == 200
      ensures |pending| <= Left(|old(pending)|, turns[0] + turns[2] + if out.Http? then turns[3] else 0)
      ensures old(pending) == [] ==> (out == IntegrityViolation <==> FilelessParent(old(View()).db, b.cid))
      ensures old(pending) == [] ==> ConflictAlone(old(View()).db, View().db, b, out)
    {
      var row, viaDigest := FindOriginal(rid, b, turns[..2]);
      Await(turns[2], rid);
      var first := LoadOriginal(rid, b, row, viaDigest);
      if first.None? {
        return IntegrityViolation;
      }
      var body := ReplayAfter(turns[3], rid, b, row, first.value, archivos[first.value]);
      out := Http(200, body);
    }

    /** The turns the conflict behind an outcome took at least; a 201 had none. */
    function ConflictTurns(out: Outcome, turns: seq<nat>): nat
      requires |turns| == 4
    {
      if out.Http? && out.status == 201 then 0 else turns[0] + turns[2] + if out.Http? then turns[3] else 0
    }

    /** The `try` around the commit. */
    method CommitOrReplay(rid: Rid, b: Batch, existing: Option<Read>, turns: seq<nat>, clock: Clock)
      returns (out: Outcome)
      requires Ready(rid) && reqs[rid] == Ingest(b, PreChecked(existing)) && |turns| == 5
      modifies this
      ensures Steady(rid) && reqs[rid].Ingest? && reqs[rid].batch == b && OutcomeOf(reqs[rid].ph, out)
      ensures |pending| <= Left(|old(pending)|, turns[0] + ConflictTurns(out, turns[1..]))
      ensures old(pending == [] && ExistingAlone(existing, b.cid)) ==> var db := old(View()).db;
        && (out.Http? && out.status == 201 <==> !HasDigest(db, b.digest))
        && (out == IntegrityViolation <==> FilelessParent(db, b.cid) && HasDigest(db, b.digest))
        && (if out.Http? && out.status == 201 then StoredAlone(db, View().db, b, clock, out.body)
            else ConflictAlone(db, View().db, b, out))
    {
      Await(turns[0], rid);
      var ok, _, body := CommitSyncAndFile(rid, b, existing, clock);
      if ok {
        return Http(201, body);
      }
      out := ResolveConflict(rid, b, turns[1..]);
    }

    /** `ingest_batch`, with up to `turns[i]` events of other requests at its i-th await. Whatever they
        do, it answers, the answer is the one the state machine records for it, and all of it is a
        run of the machine in which the others did exactly what they had planned. Left alone, it answers
        201 exactly when its correlation_id has no file and its checksum is new, fails exactly when the
        checksum is stored and its own correlation_id has a sync without files, and answers 200
        otherwise, with its own correlation_id exactly when that is stored. A 201 stores its sync and its
        file, a 200 one duplicate log, a failure nothing. */
    method IngestBatch(rid: Rid, b: Batch, turns: seq<nat>, clock: Clock) returns (out: Outcome)
      requires Valid() && rid !in reqs && OfOthers(pending, rid) && |turns| == 8
      modifies this
      ensures Steady(rid) && reqs[rid].Ingest? && reqs[rid].batch == b && OutcomeOf(reqs[rid].ph, out)
      ensures |pending| <= Left(|old(pending)|, turns[0])
      ensures out == IntegrityViolation || out.status == 201 ==>
        |pending| <= Left(|old(pending)|, turns[0] + turns[3] + ConflictTurns(out, turns[4..]))
      ensures old(pending) == [] ==> IngestedAlone(old(View()).db, View().db, b, clock, out)
    {
      FilesOfCid(history, b.cid);
      Note(Arrive(rid, Ingest(b, Start)));
      reqs := reqs[rid := Ingest(b, Start)];
      var existing, replay := PreCheck(rid, b, turns[..3]);
      if replay.Some? {
        return Http(200, replay.value);
      }
      out := CommitOrReplay(rid, b, existing, turns[3..], clock);
    }

    // ----- persist_error_log -----

    method SelectParent(rid: Rid, cid: Uuid, codigo: Codigo) returns (seen: bool)
      requires Ready(rid) && reqs[rid] == ErrorLog(cid, codigo, LStart)
      modifies this`reqs, this`history
      ensures Steady(rid) && reqs[rid] == ErrorLog(cid, codigo, LParent(seen))
      ensures seen <==> HasCid(View().db, cid)
    {
      var found := QueryByCid(cid);
      seen := found.Some?;
      Note(Event.SelectParent(rid));
      reqs := reqs[rid := ErrorLog(cid, codigo, LParent(seen))];
    }

    method CommitErrorLog(rid: Rid, cid: Uuid, codigo: Codigo, parentSeen: bool, clock: Clock) returns (ok: bool)
      requires Ready(rid) && reqs[rid] == ErrorLog(cid, codigo, LParent(parentSeen))
      modifies this`syncs, this`logs, this`reqs, this`history
      ensures Steady(rid) && reqs[rid] == ErrorLog(cid, codigo, LDone(ok))
      ensures ok <==> parentSeen == HasCid(old(View()).db, cid)
      ensures ok ==> HasCid(View().db, cid) && ErrorLogged(old(View()).db, View().db, cid, codigo, clock)
      ensures ok ==> exists n: nat :: n in logs && logs[n] == LogRow(cid, codigo)
      ensures !ok ==> syncs == old(syncs) && logs == old(logs)
    {
      var newSync := FreshKey(syncs.Keys);
      var newLog := FreshKey(logs.Keys);
      var found := QueryByCid(cid);
      ok := parentSeen == found.Some?;
      Note(CommitLog(rid, newSync, newLog, clock));
      if ok {
        if !parentSeen {
          syncs := syncs[newSync := FailedParent(cid, clock)];
        }
        logs := logs[newLog := LogRow(cid, codigo)];
        assert (if parentSeen then found.value else newSync) in syncs && logs[newLog] == LogRow(cid, codigo);
      }
      reqs := reqs[rid := ErrorLog(cid, codigo, LDone(ok))];
    }

    /** The transaction of an error log. */
    method LookAndLog(rid: Rid, cid: Uuid, codigo: Codigo, turns: seq<nat>, clock: Clock) returns (logged: bool)
      requires Ready(rid) && reqs[rid] == ErrorLog(cid, codigo, LStart) && |turns| == 2
      modifies this
      ensures Steady(rid) && reqs[rid] == ErrorLog(cid, codigo, LDone(logged))
      ensures logged ==> HasCid(View().db, cid) && exists n: nat :: n in logs && logs[n] == LogRow(cid, codigo)
      ensures |pending| == Left(|old(pending)|, turns[0] + turns[1])
      ensures old(pending) == [] ==> logged && ErrorLogged(old(View()).db, View().db, cid, codigo, clock)
    {
      Await(turns[0], rid);
      var parentSeen := SelectParent(rid, cid, codigo);
      Await(turns[1], rid);
      logged := CommitErrorLog(rid, cid, codigo, parentSeen, clock);
    }

    /** `persist_error_log`, called with an unparsable correlation_id (None) or a UUID. It never raises:
        an IntegrityError at its commit is swallowed and leaves the tables as they were. */
    method PersistErrorLog(rid: Rid, cid: Option<Uuid>, codigo: Codigo, turns: seq<nat>, clock: Clock)
      returns (logged: bool)
      requires Valid() && rid !in reqs && OfOthers(pending, rid) && |turns| == 2 && codigo != DuplicateBatch
      modifies this
      ensures cid.None? ==> !logged && View() == old(View()) && history == old(history) && pending == old(pending)
      ensures cid.Some? ==> Steady(rid) && reqs[rid] == ErrorLog(cid.value, codigo, LDone(logged))
      ensures logged ==> HasCid(View().db, cid.value)
      ensures logged ==> exists n: nat :: n in logs && logs[n] == LogRow(cid.value, codigo)
      ensures cid.Some? ==> |pending| == Left(|old(pending)|, turns[0] + turns[1])
      ensures old(pending) == [] && cid.Some? ==>
        logged && ErrorLogged(old(View()).db, View().db, cid.value, codigo, clock)
    {
      if cid.None? {
        return false;
      }
      Note(Arrive(rid, ErrorLog(cid.value, codigo, LStart)));
      reqs := reqs[rid := ErrorLog(cid.value, codigo, LStart)];
      logged := LookAndLog(rid, cid.value, codigo, turns, clock);
    }

    // ----- remediate and create_remediation -----

    /** An answer that shows the rows of the tables. */
    ghost predicate AnswersTables(target: Uuid, answer: RemediationAnswer)
      reads this
    {
      match answer
      case SyncItem(sync, _) => target in syncs && sync == Read(target, syncs[target])
      case ActionItem(id, row, cid) =>
        id in acciones && acciones[id] == row && target in syncs && cid == syncs[target].cid
      case _ => false
    }

    /** What a remediation has read is what the tables hold. */
    ghost predicate ReadyAlone(target: Uuid, accion: Accion, kind: RemediationKind, next: RemediationPhase)
      reads this
    {
      && (next.RUnknown? <==> target !in syncs)
      && (next.RReady? ==> next.read == Read(target, syncs[target]))
      && (next.RReady? && Skips(accion, kind) ==>
            next.rejected == RejectedFiles(View().db.archivos, target))
    }

    /** The loop of FORCE_SKIP_VALIDATION over the files it loaded. */
    method AcceptEach(files: set<nat>)
      modifies this`archivos
      ensures archivos == AcceptFiles(old(archivos), files)
    {
      var left := files;
      while left != {}
        invariant left <= files && archivos == AcceptFiles(old(archivos), files - left)
        decreases left
      {
        var k :| k in left;
        if k in archivos {
          archivos := archivos[k := archivos[k].(estado := Accepted)];
        }
        left := left - {k};
      }
      assert files - left == files;
    }

    method CommitRemediation(rid: Rid, target: Uuid, accion: Accion, kind: RemediationKind,
                             read: Read, rejected: set<nat>) returns (newAccion: nat)
      requires Ready(rid) && reqs[rid] == Remediation(target, accion, kind, RReady(read, rejected))
      requires kind.Record? || accion in {RetryJob, ForceSkipValidation}
      modifies this`syncs, this`archivos, this`acciones, this`reqs, this`history
      ensures Steady(rid) && reqs[rid] == Remediation(target, accion, kind, RDone)
      ensures newAccion !in old(acciones) && acciones == old(acciones)[newAccion := ActionRowOf(target, accion, kind)]
      ensures target in old(syncs)
      ensures syncs == if kind.Remediate? && accion == RetryJob
                       then old(syncs)[target := RetriedSync(read, old(syncs)[target])] else old(syncs)
      ensures archivos == if Skips(accion, kind)
                          then AcceptFiles(old(archivos), rejected) else old(archivos)
    {
      RemediationTargetStays(history, rid);
      newAccion := FreshKey(acciones.Keys);
      Note(Event.CommitRemediation(rid, newAccion));
      if kind.Remediate? {
        if accion == RetryJob {
          syncs := syncs[target := RetriedSync(read, syncs[target])];
        } else {
          AcceptEach(rejected);
        }
      }
      acciones := acciones[newAccion := ActionRowOf(target, accion, kind)];
      reqs := reqs[rid := Remediation(target, accion, kind, RDone)];
    }

    /** The commit of a remediation, and what it reads for its answer. */
    method CommitAndAnswer(rid: Rid, target: Uuid, accion: Accion, kind: RemediationKind,
                           next: RemediationPhase, turns: seq<nat>) returns (answer: RemediationAnswer)
      requires Ready(rid) && reqs[rid] == Remediation(target, accion, kind, next) && next.RReady? && |turns| == 2
      requires kind.Record? || accion in {RetryJob, ForceSkipValidation}
      modifies this
      ensures Steady(rid) && reqs[rid] == Remediation(target, accion, kind, RDone)
      ensures |pending| == Left(|old(pending)|, turns[0] + turns[1])
      ensures kind.Record? ==>
        answer.ActionItem? && answer.row == ActionRowOf(target, accion, kind) && answer.cid == next.read.row.cid
      ensures kind.Remediate? ==> answer == SyncItem(Read(target, RemediatedRow(next.read.row, accion)),
                                                     SyncSummary.CountFor(archivos, target))
      ensures old(pending == [] && ReadyAlone(target, accion, kind, next)) ==>
        && target in old(syncs) && RemediatedAlone(old(View()).db, View().db, target, accion, kind)
        && AnswersTables(target, answer)
    {
      Await(turns[0], rid);
      ghost var before := View().db;
      var id := CommitRemediation(rid, target, accion, kind, next.read, next.rejected);
      var skips := Skips(accion, kind);
      if next.read == Read(target, before.syncs[target])
         && (skips ==> next.rejected == RejectedFiles(before.archivos, target)) {
        RemediatedFresh(before, View().db, target, accion, kind, next.rejected, id);
      }
      Await(turns[1], rid);
      if kind.Record? {
        answer := ActionItem(id, ActionRowOf(target, accion, kind), next.read.row.cid);
      } else {
        var resumen := SyncSummary.CountFor(archivos, target);
        answer := SyncItem(Read(target, RemediatedRow(next.read.row, accion)), resumen);
      }
    }

    method GetSync(rid: Rid, target: Uuid, accion: Accion, kind: RemediationKind) returns (next: RemediationPhase)
      requires Ready(rid) && reqs[rid] == Remediation(target, accion, kind, RStart)
      modifies this`reqs, this`history
      ensures Steady(rid) && reqs[rid] == Remediation(target, accion, kind, next)
      ensures next.RUnknown? || next.RLoaded? || next.RReady? || next.RUnsupported?
      ensures next.RUnknown? <==> target !in syncs
      ensures next.RReady? || next.RLoaded? ==> next.read == Read(target, syncs[target])
      ensures next.RReady? ==> kind.Record? || accion == RetryJob
      ensures next.RLoaded? ==> Skips(accion, kind)
      ensures next.RUnsupported? ==> kind.Remediate? && accion in {ManualRequeue, PurgeDuplicate}
    {
      if target !in syncs {
        next := RUnknown;
      } else if kind.Record? || accion == RetryJob {
        next := RReady(Read(target, syncs[target]), {});
      } else if accion == ForceSkipValidation {
        next := RLoaded(Read(target, syncs[target]));
      } else {
        next := RUnsupported;
      }
      Note(Event.GetSync(rid));
      reqs := reqs[rid := Remediation(target, accion, kind, next)];
    }

    method GetFiles(rid: Rid, target: Uuid, accion: Accion, kind: RemediationKind, read: Read)
      returns (next: RemediationPhase)
      requires Ready(rid) && reqs[rid] == Remediation(target, accion, kind, RLoaded(read))
      modifies this`reqs, this`history
      ensures Steady(rid) && reqs[rid] == Remediation(target, accion, kind, next)
      ensures next == RReady(read, RejectedFiles(View().db.archivos, target))
    {
      next := RReady(read, RejectedFiles(View().db.archivos, target));
      Note(Event.GetFiles(rid));
      reqs := reqs[rid := Remediation(target, accion, kind, next)];
    }

    /** Everything a remediation reads before it writes. */
    method LoadTarget(rid: Rid, target: Uuid, accion: Accion, kind: RemediationKind, turns: seq<nat>)
      returns (next: RemediationPhase)
      requires Ready(rid) && reqs[rid] == Remediation(target, accion, kind, RStart) && |turns| == 2
      modifies this
      ensures Steady(rid) && reqs[rid] == Remediation(target, accion, kind, next)
      ensures next.RUnknown? || next.RReady? || next.RUnsupported?
      ensures next.RUnsupported? ==> kind.Remediate? && accion in {ManualRequeue, PurgeDuplicate}
      ensures next.RReady? ==> kind.Record? || accion in {RetryJob, ForceSkipValidation}
      ensures |pending| == Left(|old(pending)|,
                                turns[0] + if next.RReady? && Skips(accion, kind) then turns[1] else 0)
      ensures old(pending) == [] ==>
        pending == [] && View().db == old(View()).db && ReadyAlone(target, accion, kind, next)
    {
      Await(turns[0], rid);
      next := GetSync(rid, target, accion, kind);
      if next.RLoaded? {
        Await(turns[1], rid);
        next := GetFiles(rid, target, accion, kind, next.read);
      }
    }

    /** `remediate` and `create_remediation`. A RETRY_JOB always answers with a running sync. Left alone, what
        is answered is what the tables then hold. */
    method RunRemediation(rid: Rid, target: Uuid, accion: Accion, kind: RemediationKind, turns: seq<nat>)
      returns (answer: RemediationAnswer)
      requires Valid() && rid !in reqs && OfOthers(pending, rid) && |turns| == 4
      modifies this
      ensures Steady(rid) && reqs[rid] == Remediation(target, accion, kind, PhaseOf(answer))
      ensures answer.UnsupportedAction? ==> kind.Remediate? && accion in {ManualRequeue, PurgeDuplicate}
      ensures answer.SyncItem? ==> kind.Remediate? && accion in {RetryJob, ForceSkipValidation}
      ensures answer.SyncItem? ==>
        answer.sync.id == target && answer.resumen == SyncSummary.CountFor(archivos, target)
      ensures answer.SyncItem? && accion == RetryJob ==>
        answer.sync.row.estado == Running && answer.sync.row.finalizado == None
      ensures answer.ActionItem? ==> kind.Record? && answer.row == AccionRow(target, accion, kind.exito)
      ensures PhaseOf(answer) != RDone ==> |pending| == Left(|old(pending)|, turns[0])
      ensures PhaseOf(answer) == RDone ==>
        |pending| == Left(|old(pending)|,
                          turns[0] + (if Skips(accion, kind) then turns[1] else 0) + turns[2] + turns[3])
      ensures old(pending) == [] ==> (answer.NotFound? <==> target !in old(syncs))
      ensures old(pending) == [] && PhaseOf(answer) != RDone ==> View().db == old(View()).db
      ensures old(pending) == [] && PhaseOf(answer) == RDone ==>
        RemediatedAlone(old(View()).db, View().db, target, accion, kind) && AnswersTables(target, answer)
    {
      Note(Arrive(rid, Remediation(target, accion, kind, RStart)));
      reqs := reqs[rid := Remediation(target, accion, kind, RStart)];
      var next := LoadTarget(rid, target, accion, kind, turns[..2]);
      if next.RUnknown? {
        return NotFound;
      }
      if next.RUnsupported? {
        return UnsupportedAction;
      }
      answer := CommitAndAnswer(rid, target, accion, kind, next, turns[2..]);
    }
  }
}
