/** What the dashboard shows of the tables, and what an ingest changes about it. */
module Dashboard {
  import opened Basics
  import opened Tables
  import opened Protocol
  import opened Invariants
  import opened ErrorLogging
  import Metrics
  import SyncSummary

  /** The file `k` ran on a day and has an estado. */
  predicate IsOn(db: Db, k: nat, day: int, estado: ArchivoEstado) {
    && k in db.archivos && db.archivos[k].syncId in db.syncs
    && db.syncs[db.archivos[k].syncId].fecha == day && db.archivos[k].estado == estado
  }

  function FilesOn(db: Db, day: int, estado: ArchivoEstado): set<nat> {
    set k | k in db.archivos && IsOn(db, k, day, estado)
  }

  ghost predicate RowOf(db: Db, k: nat, row: Metrics.FileRow) {
    && k in db.archivos && db.archivos[k].syncId in db.syncs
    && row.fecha == db.syncs[db.archivos[k].syncId].fecha && row.estado == db.archivos[k].estado
  }

  /** `rows` is the join of files and syncs, in the order in which `keys` lists the files. */
  ghost predicate IsJoin(db: Db, keys: seq<nat>, rows: seq<Metrics.FileRow>) {
    && SyncSummary.Lists(keys, db.archivos.Keys) && |rows| == |keys|
    && forall i :: 0 <= i < |rows| ==> RowOf(db, keys[i], rows[i])
  }

  function FilesOnAmong(db: Db, keys: set<nat>, day: int, estado: ArchivoEstado): set<nat> {
    set k | k in keys && IsOn(db, k, day, estado)
  }

  lemma OneMoreFile(db: Db, keys: set<nat>, k: nat, day: int, estado: ArchivoEstado)
    requires k in keys
    ensures |FilesOnAmong(db, keys, day, estado)|
      == |FilesOnAmong(db, keys - {k}, day, estado)| + (if IsOn(db, k, day, estado) then 1 else 0)
  {
    assert FilesOnAmong(db, keys, day, estado)
      == FilesOnAmong(db, keys - {k}, day, estado) + if IsOn(db, k, day, estado) then {k} else {};
  }

  lemma {:induction false} JoinPrefixCounts(db: Db, keys: seq<nat>, among: set<nat>, rows: seq<Metrics.FileRow>,
                                            day: int, estado: ArchivoEstado)
    requires SyncSummary.Lists(keys, among) && |rows| == |keys|
    requires forall i :: 0 <= i < |rows| ==> RowOf(db, keys[i], rows[i])
    ensures Metrics.FilesBetween(rows, day, day, estado) == |FilesOnAmong(db, among, day, estado)|
    decreases |rows|
  {
    if rows == [] {
      assert FilesOnAmong(db, among, day, estado) == {};
    } else {
      var n := |rows| - 1;
      SyncSummary.ListsPrefix(keys, among);
      JoinPrefixCounts(db, keys[..n], among - {keys[n]}, rows[..n], day, estado);
      assert RowOf(db, keys[n], rows[n]) && keys[n] in keys;
      OneMoreFile(db, among, keys[n], day, estado);
    }
  }

  /** Each day of the throughput shows the files of the tables whose sync ran on it, whatever order the join
      came in. */
  lemma ThroughputShowsTables(db: Db, keys: seq<nat>, rows: seq<Metrics.FileRow>, days: int, today: int,
                              estado: ArchivoEstado)
    requires IsJoin(db, keys, rows)
    ensures var shown := Metrics.Throughput(rows, days, today);
      forall i :: 0 <= i < |shown| ==> Metrics.Shown(shown[i], estado) == |FilesOn(db, shown[i].fecha, estado)|
  {
    var shown := Metrics.Throughput(rows, days, today);
    Metrics.ThroughputConserves(rows, days, today, estado);
    forall i | 0 <= i < |shown| ensures Metrics.Shown(shown[i], estado) == |FilesOn(db, shown[i].fecha, estado)| {
      JoinPrefixCounts(db, keys, db.archivos.Keys, rows, shown[i].fecha, estado);
      assert FilesOnAmong(db, db.archivos.Keys, shown[i].fecha, estado) == FilesOn(db, shown[i].fecha, estado);
    }
  }

  /** `db'` is `db` with the file `k` stored under the sync `id`, which had none and ran today. */
  ghost predicate StoresUnder(db: Db, db': Db, id: Uuid, k: nat, today: int) {
    && ForeignKeys(db) && k !in db.archivos && !HasFile(db, id)
    && id in db'.syncs && db'.syncs[id].fecha == today
    && (forall i :: i in db.syncs && i != id ==> i in db'.syncs && db'.syncs[i] == db.syncs[i])
    && k in db'.archivos && db'.archivos == db.archivos[k := db'.archivos[k]]
    && db'.archivos[k].syncId == id && db'.archivos[k].estado == Accepted
  }

  /** Storing a file under a sync that had none adds it to the day of the sync and moves no other. */
  lemma StoringAddsOne(db: Db, db': Db, id: Uuid, k: nat, today: int, day: int, estado: ArchivoEstado)
    requires StoresUnder(db, db', id, k, today)
    ensures |FilesOn(db', day, estado)|
      == |FilesOn(db, day, estado)| + (if day == today && estado == Accepted then 1 else 0)
  {
    assert FilesOn(db', day, estado)
      == FilesOn(db, day, estado) + if day == today && estado == Accepted then {k} else {};
  }

  /** Day i is the same day, with one file more if it is the last day and the files are accepted ones. */
  ghost predicate MoreToday(before: seq<Metrics.Day>, after: seq<Metrics.Day>, estado: ArchivoEstado, i: nat)
    requires i < |before| == |after|
  {
    && after[i].fecha == before[i].fecha
    && Metrics.Shown(after[i], estado)
       == Metrics.Shown(before[i], estado) + (if i == |after| - 1 && estado == Accepted then 1 else 0)
  }

  ghost predicate OneMoreToday(before: seq<Metrics.Day>, after: seq<Metrics.Day>, estado: ArchivoEstado) {
    |before| == |after| && forall i :: 0 <= i < |after| ==> MoreToday(before, after, estado, i)
  }

  lemma ThroughputGrows(db: Db, db': Db, id: Uuid, k: nat, days: int, today: int, estado: ArchivoEstado,
                        keys: seq<nat>, rows: seq<Metrics.FileRow>, keys': seq<nat>, rows': seq<Metrics.FileRow>)
    requires StoresUnder(db, db', id, k, today) && IsJoin(db, keys, rows) && IsJoin(db', keys', rows')
    ensures OneMoreToday(Metrics.Throughput(rows, days, today), Metrics.Throughput(rows', days, today), estado)
  {
    ThroughputShowsTables(db, keys, rows, days, today, estado);
    ThroughputShowsTables(db', keys', rows', days, today, estado);
    Metrics.ThroughputConserves(rows, days, today, estado);
    Metrics.ThroughputConserves(rows', days, today, estado);
    var before, after := Metrics.Throughput(rows, days, today), Metrics.Throughput(rows', days, today);
    forall i | 0 <= i < |after| ensures MoreToday(before, after, estado, i) {
      StoringAddsOne(db, db', id, k, today, after[i].fecha, estado);
    }
  }

  /** After an undisturbed 201 the throughput, however many days it covers, shows one accepted file more today
      and is otherwise what it was. */
  lemma IngestShowsToday(es: seq<Event>, rid: Rid, b: Batch, found: Option<Uuid>, newSync: Uuid, newFile: nat,
                         clock: Clock, days: int, estado: ArchivoEstado,
                         keys: seq<nat>, rows: seq<Metrics.FileRow>, keys': seq<nat>, rows': seq<Metrics.FileRow>)
    requires var s := Exec(INIT, es);
      && rid !in s.reqs && NeverStored(s, b) && FoundByCid(s.db, b.cid, found)
      && newSync !in s.db.syncs && newFile !in s.db.archivos
      && IsJoin(s.db, keys, rows)
      && IsJoin(Exec(s, IngestEvents(rid, b, found, newSync, newFile, clock)).db, keys', rows')
    ensures OneMoreToday(Metrics.Throughput(rows, days, clock.today),
                         Metrics.Throughput(rows', days, clock.today), estado)
  {
    var s := Exec(INIT, es);
    var s' := Exec(s, IngestEvents(rid, b, found, newSync, newFile, clock));
    var id := if found.Some? then found.value else newSync;
    RunKeepsInv(es);
    RecoveryAfterRejections(es, rid, b, found, newSync, newFile, clock);
    ThroughputGrows(s.db, s'.db, id, newFile, days, clock.today, estado, keys, rows, keys', rows');
  }
}
