/** The IntegrityError branch of `ingest_batch`: when it replays, when it re-raises. */
module ConflictBranch {
  import opened Basics
  import opened Tables
  import opened Protocol
  import opened Invariants
  import opened LifecycleRuns

  predicate IsReraised(s: State, rid: Rid) {
    IsIngest(s, rid) && s.reqs[rid].ph.Reraised?
  }

  /** The sync of `cid` exists and owns no file. */
  ghost predicate FilelessParent(db: Db, cid: Uuid) {
    exists id :: id in db.syncs && db.syncs[id].cid == cid && !HasFile(db, id)
  }

  lemma DigestLookupHits(s: State, rid: Rid)
    requires Inv(s) && IsIngest(s, rid) && s.reqs[rid].ph.ByDigest?
    ensures !FoundByDigest(s.db, s.reqs[rid].batch.digest, None)
  {
    assert RequestOk(s.db, s.reqs[rid]);
    var k :| k in s.db.archivos && s.db.archivos[k].digest == s.reqs[rid].batch.digest;
    assert OwnsDigest(s.db, s.db.archivos[k].syncId, s.reqs[rid].batch.digest);
  }

  /** After a failed commit `_load_original` never returns None: when the look-up by
      correlation_id misses, the look-up by checksum finds a sync that owns such a file. */
  lemma OriginalIsNeverNone(es: seq<Event>, rid: Rid)
    requires var s := Exec(INIT, es); IsIngest(s, rid) && s.reqs[rid].ph.ByDigest?
    ensures var s := Exec(INIT, es); !FoundByDigest(s.db, s.reqs[rid].batch.digest, None)
  {
    RunKeepsInv(es);
    DigestLookupHits(Exec(INIT, es), rid);
  }

  /** A sync reached through its checksum owns a file, so only the correlation_id path can miss. */
  lemma ViaDigestHasFile(s: State, rid: Rid)
    requires Inv(s) && IsIngest(s, rid) && s.reqs[rid].ph.OriginalRead? && s.reqs[rid].ph.viaDigest
    ensures HasFile(s.db, s.reqs[rid].ph.original.id)
  {
    assert RequestOk(s.db, s.reqs[rid]);
    var k :| k in s.db.archivos && s.db.archivos[k].syncId == s.reqs[rid].ph.original.id;
  }

  /** The correlation_id index makes "the" sync of a correlation_id unique. */
  lemma FilelessParentIs(db: Db, cid: Uuid, id: Uuid)
    requires UniqueCids(db) && id in db.syncs && db.syncs[id].cid == cid
    ensures FilelessParent(db, cid) <==> !HasFile(db, id)
  {
    if !HasFile(db, id) {
      assert id in db.syncs && db.syncs[id].cid == cid && !HasFile(db, id);
    }
  }

  lemma ReraisingEvents(s: State, e: Event, rid: Rid)
    requires !IsReraised(s, rid) && IsReraised(Step(s, e), rid)
    ensures e.rid == rid && IsIngest(s, rid)
    ensures (e.LookupDigest? && s.reqs[rid].ph.ByDigest? && FoundByDigest(s.db, s.reqs[rid].batch.digest, None))
         || (e.LoadOriginal? && s.reqs[rid].ph.OriginalRead? && !HasFile(s.db, s.reqs[rid].ph.original.id))
         || (e.LogDuplicate? && s.reqs[rid].ph.Replaying? && !HasCid(s.db, s.reqs[rid].ph.source.row.cid))
  {
  }

  lemma ReplaySourceStays(s: State, rid: Rid)
    requires Inv(s) && IsIngest(s, rid) && s.reqs[rid].ph.Replaying?
    ensures HasCid(s.db, s.reqs[rid].ph.source.row.cid)
  {
    assert RequestOk(s.db, s.reqs[rid]);
  }

  lemma OriginalIsOwnSync(s: State, rid: Rid)
    requires Inv(s) && IsIngest(s, rid) && s.reqs[rid].ph.OriginalRead?
    ensures s.reqs[rid].ph.viaDigest ==> HasFile(s.db, s.reqs[rid].ph.original.id)
    ensures !s.reqs[rid].ph.viaDigest ==>
      (FilelessParent(s.db, s.reqs[rid].batch.cid) <==> !HasFile(s.db, s.reqs[rid].ph.original.id))
  {
    assert RequestOk(s.db, s.reqs[rid]);
    if s.reqs[rid].ph.viaDigest { ViaDigestHasFile(s, rid); }
    else { FilelessParentIs(s.db, s.reqs[rid].batch.cid, s.reqs[rid].ph.original.id); }
  }

  /** A request is re-raised only by a look-up that finds its own correlation_id on a sync
      without files. */
  lemma ReraisedMeansFileless(s: State, e: Event, rid: Rid)
    requires Inv(s) && !IsReraised(s, rid) && IsReraised(Step(s, e), rid)
    ensures IsIngest(s, rid) && e.LoadOriginal? && e.rid == rid
    ensures FilelessParent(s.db, s.reqs[rid].batch.cid)
  {
    ReraisingEvents(s, e, rid);
    if s.reqs[rid].ph.ByDigest? { DigestLookupHits(s, rid); }
    if s.reqs[rid].ph.Replaying? { ReplaySourceStays(s, rid); }
    if s.reqs[rid].ph.OriginalRead? { OriginalIsOwnSync(s, rid); }
  }

  /** The look-up of the original after a conflict, once its rows are loaded: the request is
      re-raised exactly when, at that moment, its correlation_id has a sync without files,
      and goes on to replay otherwise. `pick` is any answer the database may give. */
  lemma ReraiseExactly(es: seq<Event>, rid: Rid, pick: Option<nat>)
    requires var s := Exec(INIT, es);
      IsIngest(s, rid) && s.reqs[rid].ph.OriginalRead? && FirstFile(s.db, s.reqs[rid].ph.original.id, pick)
    ensures var s := Exec(INIT, es); var s' := Step(s, LoadOriginal(rid, pick));
      && (s'.reqs[rid].ph.Reraised? <==>
            !s.reqs[rid].ph.viaDigest && FilelessParent(s.db, s.reqs[rid].batch.cid))
      && (s'.reqs[rid].ph.Reraised? || s'.reqs[rid].ph.Replaying?)
  {
    var s := Exec(INIT, es);
    var s' := Step(s, LoadOriginal(rid, pick));
    RunKeepsInv(es);
    OriginalIsOwnSync(s, rid);
  }

  /** Both reads of the look-up by correlation_id, or the three of the look-up by checksum, with
      nothing in between. */
  function LookupEvents(rid: Rid, byCid: Option<Uuid>, byDigest: Option<Uuid>, pick: Option<nat>): seq<Event> {
    [LookupCid(rid, byCid)] + (if byCid.None? then [LookupDigest(rid, byDigest)] else []) + [LoadOriginal(rid, pick)]
  }

  /** The answers are ones the database may give in a state with tables `db`. */
  ghost predicate Answers(db: Db, b: Batch, byCid: Option<Uuid>, byDigest: Option<Uuid>, pick: Option<nat>) {
    && FoundByCid(db, b.cid, byCid)
    && (byCid.Some? ==> FirstFile(db, byCid.value, pick))
    && (byCid.None? ==> FoundByDigest(db, b.digest, byDigest))
    && (byCid.None? && byDigest.Some? ==> FirstFile(db, byDigest.value, pick))
  }

  /** The whole branch: from the conflict, an undisturbed look-up re-raises if and only if the
      request's correlation_id has a sync without files, and otherwise is about to answer 200. */
  lemma ConflictOutcome(es: seq<Event>, rid: Rid, byCid: Option<Uuid>, byDigest: Option<Uuid>, pick: Option<nat>)
    requires var s := Exec(INIT, es);
      IsIngest(s, rid) && s.reqs[rid].ph.Conflicted? && Answers(s.db, s.reqs[rid].batch, byCid, byDigest, pick)
    ensures var s := Exec(INIT, es);
      var s' := Exec(s, LookupEvents(rid, byCid, byDigest, pick));
      && s'.db == s.db && IsIngest(s', rid)
      && (s'.reqs[rid].ph.Reraised? <==> FilelessParent(s.db, s.reqs[rid].batch.cid))
      && (s'.reqs[rid].ph.Reraised? || s'.reqs[rid].ph.Replaying?)
  {
    var s := Exec(INIT, es);
    var s1 := Step(s, LookupCid(rid, byCid));
    ExecAppend(INIT, es, [LookupCid(rid, byCid)]);
    assert Exec(INIT, es + [LookupCid(rid, byCid)]) == s1 by {
      assert Exec(s, [LookupCid(rid, byCid)]) == Exec(s1, []);
    }
    if byCid.Some? {
      ReraiseExactly(es + [LookupCid(rid, byCid)], rid, pick);
      assert LookupEvents(rid, byCid, byDigest, pick) == [LookupCid(rid, byCid), LoadOriginal(rid, pick)];
      ExecTwo(s, LookupCid(rid, byCid), LoadOriginal(rid, pick));
    } else {
      OriginalIsNeverNone(es + [LookupCid(rid, byCid)], rid);
      var e1, e2, e3 := LookupCid(rid, byCid), LookupDigest(rid, byDigest), LoadOriginal(rid, pick);
      var s2 := Step(s1, e2);
      ExecTwo(INIT, e1, e2);
      assert Exec(INIT, es + [e1, e2]) == s2 by {
        ExecAppend(INIT, es, [e1, e2]);
        ExecTwo(s, e1, e2);
      }
      ReraiseExactly(es + [e1, e2], rid, pick);
      assert LookupEvents(rid, byCid, byDigest, pick) == [e1, e2] + [e3];
      ExecAppend(s, [e1, e2], [e3]);
      ExecTwo(s, e1, e2);
      assert Exec(s2, [e3]) == Exec(Step(s2, e3), []);
      assert !FilelessParent(s.db, s.reqs[rid].batch.cid);
    }
  }

  // ----- without error loggers nothing is re-raised -----

  /** A sync without files has been logged under its correlation_id. */
  ghost predicate FilelessLogged(s: State) {
    forall id :: id in s.db.syncs && !HasFile(s.db, id) ==> Logged(s, s.db.syncs[id].cid)
  }

  ghost predicate ReraisedLogged(s: State) {
    forall rid :: IsReraised(s, rid) ==> Logged(s, s.reqs[rid].batch.cid)
  }

  /** A sync that appears was inserted together with a file, or by an error log. */
  lemma NewSyncOrigin(s: State, e: Event, id: Uuid)
    requires id !in s.db.syncs && id in Step(s, e).db.syncs
    ensures HasFile(Step(s, e).db, id) || Logged(s, Step(s, e).db.syncs[id].cid)
  {
    match e
    case CommitIngest(_, _, newFile, _) => assert Step(s, e).db.archivos[newFile].syncId == id;
    case CommitLog(rid, _, _, _) => assert s.reqs[rid].cid == Step(s, e).db.syncs[id].cid;
    case CommitRemediation(_, _) =>
    case _ =>
  }

  lemma StepKeepsFilelessLogged(s: State, e: Event)
    requires Extends(s.db, Step(s, e).db) && FilelessLogged(s)
    ensures FilelessLogged(Step(s, e))
  {
    var s' := Step(s, e);
    forall id | id in s'.db.syncs && !HasFile(s'.db, id) ensures Logged(s', s'.db.syncs[id].cid) {
      if id in s.db.syncs {
        if HasFile(s.db, id) { HasFileGrows(s.db, s'.db, id); }
      } else {
        NewSyncOrigin(s, e, id);
      }
      LoggedStays(s, e, s'.db.syncs[id].cid);
    }
  }

  lemma StepKeepsReraisedLogged(s: State, e: Event)
    requires Inv(s) && FilelessLogged(s) && ReraisedLogged(s)
    ensures ReraisedLogged(Step(s, e))
  {
    forall rid | IsReraised(Step(s, e), rid) ensures Logged(Step(s, e), Step(s, e).reqs[rid].batch.cid) {
      if !IsReraised(s, rid) {
        ReraisedMeansFileless(s, e, rid);
        var id :| id in s.db.syncs && s.db.syncs[id].cid == s.reqs[rid].batch.cid && !HasFile(s.db, id);
      }
      BatchStays(s, e, rid);
      LoggedStays(s, e, s.reqs[rid].batch.cid);
    }
  }

  lemma {:induction false} LoggedRun(s: State, es: seq<Event>)
    requires Inv(s) && FilelessLogged(s) && ReraisedLogged(s)
    ensures FilelessLogged(Exec(s, es)) && ReraisedLogged(Exec(s, es))
    decreases |es|
  {
    if es != [] {
      StepKeepsInv(s, es[0]);
      StepKeepsFilelessLogged(s, es[0]);
      StepKeepsReraisedLogged(s, es[0]);
      LoggedRun(Step(s, es[0]), es[1..]);
    }
  }

  /** The promise of the module's documentation, with the hypothesis it needs: in every run in which no
      error log of a correlation_id is started, no ingest of that correlation_id is ever re-raised, so every
      loser of a race that lives on replays the winner's row, and every sync of it owns a file.
      (`Witnesses.LoggerRaceReraises` is a run with one error log in which a valid ingest with a new
      checksum is lost.) */
  lemma NoLoggerNoReraise(es: seq<Event>, cid: Uuid)
    requires !Logged(Exec(INIT, es), cid)
    ensures var s := Exec(INIT, es);
      && (forall rid :: IsReraised(s, rid) ==> s.reqs[rid].batch.cid != cid)
      && (forall id :: id in s.db.syncs && s.db.syncs[id].cid == cid ==> HasFile(s.db, id))
  {
    InitInv();
    LoggedRun(INIT, es);
  }
}
