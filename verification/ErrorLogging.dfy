/** Best-effort error logs, and what they leave for a later attempt. */
module ErrorLogging {
  import opened Basics
  import opened Tables
  import opened Protocol
  import opened Invariants

  predicate AboutToLog(s: State, rid: Rid) {
    rid in s.reqs && s.reqs[rid].ErrorLog? && s.reqs[rid].lph.LParent?
  }

  /** The transaction of the error logger in any reachable state: it changes no existing row and
      no file or action, and it adds exactly its log row, plus a failed parent when it saw none,
      unless another request inserted that parent since it looked, and then it adds nothing.
      Nothing else can make it fail. */
  lemma ErrorLogExactly(es: seq<Event>, rid: Rid, newSync: Uuid, newLog: nat, clock: Clock)
    requires var s := Exec(INIT, es);
      AboutToLog(s, rid) && newSync !in s.db.syncs && newLog !in s.db.logs
    ensures var s := Exec(INIT, es);
      var s' := Step(s, CommitLog(rid, newSync, newLog, clock));
      var cid, seen := s.reqs[rid].cid, s.reqs[rid].lph.seen;
      && s'.reqs[rid].lph == LDone(seen || !HasCid(s.db, cid))
      && (!seen && HasCid(s.db, cid) ==> s'.db == s.db)
      && (seen ==> s'.db == s.db.(logs := s.db.logs[newLog := LogRow(cid, s.reqs[rid].codigo)]))
      && (!HasCid(s.db, cid) ==>
            var parent := Sync(cid := cid, fecha := clock.today, estado := Failed,
                               iniciado := clock.iniciado, finalizado := None);
            s'.db == s.db.(syncs := s.db.syncs[newSync := parent],
                           logs := s.db.logs[newLog := LogRow(cid, s.reqs[rid].codigo)]))
  {
    var s := Exec(INIT, es);
    RunKeepsInv(es);
    assert RequestOk(s.db, s.reqs[rid]);
  }

  function LogEvents(rid: Rid, cid: Uuid, codigo: Codigo, newSync: Uuid, newLog: nat, clock: Clock): seq<Event> {
    [Arrive(rid, ErrorLog(cid, codigo, LStart)), SelectParent(rid), CommitLog(rid, newSync, newLog, clock)]
  }

  /** An undisturbed error log is never lost. */
  lemma UndisturbedErrorLogIsKept(s: State, rid: Rid, cid: Uuid, codigo: Codigo,
                                  newSync: Uuid, newLog: nat, clock: Clock)
    requires rid !in s.reqs && codigo != DuplicateBatch && newSync !in s.db.syncs && newLog !in s.db.logs
    ensures var s' := Exec(s, LogEvents(rid, cid, codigo, newSync, newLog, clock));
      && newLog in s'.db.logs && s'.db.logs[newLog] == LogRow(cid, codigo) && HasCid(s'.db, cid)
      && s'.db.archivos == s.db.archivos
  {
    var e1, e2 := Arrive(rid, ErrorLog(cid, codigo, LStart)), SelectParent(rid);
    var e3 := CommitLog(rid, newSync, newLog, clock);
    var s1 := Step(s, e1);
    var s2 := Step(s1, e2);
    var s3 := Step(s2, e3);
    assert [e1, e2, e3][1..] == [e2, e3] && [e2, e3][1..] == [e3] && [e3][1..] == [];
    assert Exec(s, [e1, e2, e3]) == Exec(s1, [e2, e3]) == Exec(s2, [e3]) == Exec(s3, []);
    assert s2.reqs[rid].lph == LParent(HasCid(s.db, cid));
    if HasCid(s.db, cid) {
      assert s3.db.syncs == s.db.syncs;
      var id :| id in s.db.syncs && s.db.syncs[id].cid == cid;
      assert id in s3.db.syncs && s3.db.syncs[id].cid == cid;
    } else {
      assert newSync in s3.db.syncs && s3.db.syncs[newSync].cid == cid;
    }
  }

  // ----- recovery -----

  /** The whole of a first ingest, with nothing in between. */
  function IngestEvents(rid: Rid, b: Batch, found: Option<Uuid>,
                        newSync: Uuid, newFile: nat, clock: Clock): seq<Event> {
    [Arrive(rid, Ingest(b, Start)), SelectSync(rid, found)]
    + (if found.Some? then [LoadFiles(rid, None)] else [])
    + [CommitIngest(rid, newSync, newFile, clock)]
  }

  /** No request of this correlation_id and none of this checksum has been answered 201. */
  ghost predicate NeverStored(s: State, b: Batch) {
    forall rid :: IsCreated(s, rid) ==> s.reqs[rid].batch.cid != b.cid && s.reqs[rid].batch.digest != b.digest
  }

  lemma NeverStoredMeansFree(s: State, b: Batch)
    requires Inv(s) && NeverStored(s, b)
    ensures !HasDigest(s.db, b.digest)
    ensures forall id :: id in s.db.syncs && s.db.syncs[id].cid == b.cid ==> !HasFile(s.db, id)
  {
    forall k | k in s.db.archivos
      ensures s.db.archivos[k].digest != b.digest && s.db.syncs[s.db.archivos[k].syncId].cid != b.cid
    {
      var r :| CreatedBy(s, k, r);
      assert RequestOk(s.db, s.reqs[r]);
    }
  }

  lemma ExecIngest(s: State, rid: Rid, b: Batch, found: Option<Uuid>, newSync: Uuid, newFile: nat, clock: Clock)
    requires rid !in s.reqs && FoundByCid(s.db, b.cid, found)
    requires found.Some? ==> !HasFile(s.db, found.value)
    ensures var existing := if found.Some? then Some(Read(found.value, s.db.syncs[found.value])) else None;
      Exec(s, IngestEvents(rid, b, found, newSync, newFile, clock))
      == Step(State(s.db, s.reqs[rid := Ingest(b, PreChecked(existing))]), CommitIngest(rid, newSync, newFile, clock))
  {
    var e1, e2, e3, e4 := Arrive(rid, Ingest(b, Start)), SelectSync(rid, found), LoadFiles(rid, None),
                          CommitIngest(rid, newSync, newFile, clock);
    var s1 := Step(s, e1);
    var s2 := Step(s1, e2);
    if found.Some? {
      var s3 := Step(s2, e3);
      assert IngestEvents(rid, b, found, newSync, newFile, clock) == [e1, e2, e3, e4];
      assert [e1, e2, e3, e4][1..] == [e2, e3, e4] && [e2, e3, e4][1..] == [e3, e4] && [e3, e4][1..] == [e4];
      assert Exec(s, [e1, e2, e3, e4]) == Exec(s1, [e2, e3, e4]) == Exec(s2, [e3, e4]) == Exec(s3, [e4]);
      assert Exec(s3, [e4]) == Exec(Step(s3, e4), []);
      assert s3.reqs == s.reqs[rid := Ingest(b, PreChecked(Some(Read(found.value, s.db.syncs[found.value]))))];
    } else {
      assert IngestEvents(rid, b, found, newSync, newFile, clock) == [e1, e2, e4];
      assert [e1, e2, e4][1..] == [e2, e4] && [e2, e4][1..] == [e4];
      assert Exec(s, [e1, e2, e4]) == Exec(s1, [e2, e4]) == Exec(s2, [e4]) == Exec(Step(s2, e4), []);
      assert s2.reqs == s.reqs[rid := Ingest(b, PreChecked(None))];
    }
  }

  lemma CommitIsFree(s: State, rid: Rid, b: Batch, found: Option<Uuid>, newSync: Uuid, newFile: nat, clock: Clock)
    requires !HasDigest(s.db, b.digest) && FoundByCid(s.db, b.cid, found)
    requires newSync !in s.db.syncs && newFile !in s.db.archivos
    ensures var existing := if found.Some? then Some(Read(found.value, s.db.syncs[found.value])) else None;
      var s0 := State(s.db, s.reqs[rid := Ingest(b, PreChecked(existing))]);
      var s' := Step(s0, CommitIngest(rid, newSync, newFile, clock));
      var id := if found.Some? then found.value else newSync;
      && IsCreated(s', rid)
      && s'.reqs[rid].ph.body == Response(b.cid, id, Completed, b.nombre, b.tipo, b.digest, b.registros)
      && s'.db.syncs == s.db.syncs[id := CompletedSync(b, clock)]
      && s'.db.archivos == s.db.archivos[newFile := FileOf(b, id)]
      && s'.db.logs == s.db.logs && s'.db.acciones == s.db.acciones
  {
    if found.Some? {
      var row := s.db.syncs[found.value];
      assert CommittedSync(s.db, b, Some(Read(found.value, row)), clock) == CompletedSync(b, clock);
    }
  }

  /** An undisturbed ingest whose correlation_id has no file and whose checksum is new. */
  lemma FreeIngest(s: State, rid: Rid, b: Batch, found: Option<Uuid>, newSync: Uuid, newFile: nat, clock: Clock)
    requires rid !in s.reqs && !HasDigest(s.db, b.digest) && FoundByCid(s.db, b.cid, found)
    requires found.Some? ==> !HasFile(s.db, found.value)
    requires newSync !in s.db.syncs && newFile !in s.db.archivos
    ensures var s' := Exec(s, IngestEvents(rid, b, found, newSync, newFile, clock));
      var id := if found.Some? then found.value else newSync;
      && IsCreated(s', rid)
      && s'.reqs[rid].ph.body == Response(b.cid, id, Completed, b.nombre, b.tipo, b.digest, b.registros)
      && s'.db.syncs == s.db.syncs[id := CompletedSync(b, clock)]
      && s'.db.archivos == s.db.archivos[newFile := FileOf(b, id)]
      && s'.db.logs == s.db.logs && s'.db.acciones == s.db.acciones
  {
    ExecIngest(s, rid, b, found, newSync, newFile, clock);
    CommitIsFree(s, rid, b, found, newSync, newFile, clock);
  }

  lemma LoggedCidIsFound(db: Db, cid: Uuid, found: Option<Uuid>)
    requires Integrity(db) && FoundByCid(db, cid, found)
    ensures (exists k :: k in db.logs && db.logs[k].cid == cid) ==> found.Some?
  {
    if k :| k in db.logs && db.logs[k].cid == cid { assert HasCid(db, db.logs[k].cid); }
  }

  lemma FreshSyncHasNoFile(db: Db, id: Uuid)
    requires Integrity(db) && id !in db.syncs
    ensures !HasFile(db, id)
  {
  }

  /** Recovery: whatever was attempted before, as long as neither the correlation_id nor the
      checksum was ever accepted, an undisturbed valid ingest is answered 201. It completes the
      sync row the rejected attempts left, under the same id, when there is one, and there is one
      whenever some attempt was logged; every log row stays attached to it. */
  lemma RecoveryAfterRejections(es: seq<Event>, rid: Rid, b: Batch, found: Option<Uuid>,
                                newSync: Uuid, newFile: nat, clock: Clock)
    requires var s := Exec(INIT, es);
      && rid !in s.reqs && NeverStored(s, b) && FoundByCid(s.db, b.cid, found)
      && newSync !in s.db.syncs && newFile !in s.db.archivos
    ensures var s := Exec(INIT, es);
      var s' := Exec(s, IngestEvents(rid, b, found, newSync, newFile, clock));
      var id := if found.Some? then found.value else newSync;
      && IsCreated(s', rid)
      && s'.reqs[rid].ph.body == Response(b.cid, id, Completed, b.nombre, b.tipo, b.digest, b.registros)
      && s'.db.syncs == s.db.syncs[id := Sync(cid := b.cid, fecha := clock.today, estado := Completed,
                                              iniciado := clock.iniciado, finalizado := Some(clock.finalizado))]
      && !HasFile(s.db, id)
      && s'.db.archivos == s.db.archivos[newFile := Archivo(syncId := id, nombre := b.nombre, tipo := b.tipo,
                                                            digest := b.digest, estado := Accepted,
                                                            registros := b.registros)]
      && s'.db.logs == s.db.logs && s'.db.acciones == s.db.acciones
      && ((exists k :: k in s.db.logs && s.db.logs[k].cid == b.cid) ==> found.Some?)
  {
    var s := Exec(INIT, es);
    RunKeepsInv(es);
    NeverStoredMeansFree(s, b);
    if found.None? { FreshSyncHasNoFile(s.db, newSync); }
    FreeIngest(s, rid, b, found, newSync, newFile, clock);
    LoggedCidIsFound(s.db, b.cid, found);
  }
}
