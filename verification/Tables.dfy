/** The four tables of the service as plain values, with the look-ups and the
    transactions the services run against them. A table maps a primary key to
    its row; the two unique indexes and the foreign keys are not built into the
    types, they are predicates that every transaction has to keep. */
module Tables {
  import opened Basics

  type Uuid = nat
  type Digest = nat

  datatype SyncEstado = Pending | Running | Completed | Failed | Rejected
  datatype ArchivoEstado = Accepted | FileRejected
  datatype TipoArchivo = Ventas | Inventario | Clientes

  datatype Codigo =
    | ChecksumMismatch | DbTimeout | SchemaValidation | DuplicateBatch
    | NetworkReset | OrphanRecord | JsonMalformed | PoolExhausted

  datatype Accion = RetryJob | ForceSkipValidation | ManualRequeue | PurgeDuplicate

  /** Row of `sincronizaciones`; its id is the key it is stored under. */
  datatype Sync = Sync(cid: Uuid, fecha: int, estado: SyncEstado, iniciado: int, finalizado: Option<int>)

  /** Row of `archivos_procesados`. */
  datatype Archivo = Archivo(syncId: Uuid, nombre: string, tipo: TipoArchivo, digest: Digest,
                             estado: ArchivoEstado, registros: nat)

  /** Row of `logs_errores`. */
  datatype LogRow = LogRow(cid: Uuid, codigo: Codigo)

  /** Row of `acciones_remediacion`. */
  datatype AccionRow = AccionRow(syncId: Uuid, accion: Accion, exito: bool)

  datatype Db = Db(syncs: map<Uuid, Sync>, archivos: map<nat, Archivo>,
                   logs: map<nat, LogRow>, acciones: map<nat, AccionRow>)

  const EMPTY_DB := Db(map[], map[], map[], map[])

  /** A row as some session loaded it; it may be stale by the time it is used. */
  datatype Read = Read(id: Uuid, row: Sync)

  /** A valid ingest request as it reaches `ingest_batch`. */
  datatype Batch = Batch(cid: Uuid, nombre: string, tipo: TipoArchivo, digest: Digest, registros: nat)

  /** The values `date.today()` and the two calls of `_now()` return. */
  datatype Clock = Clock(today: int, iniciado: int, finalizado: int)

  /** The body echoed by a 201 and by its replays. */
  datatype Response = Response(cid: Uuid, syncId: Uuid, estado: SyncEstado, nombre: string,
                               tipo: TipoArchivo, digest: Digest, registros: nat)

  function ResponseOf(read: Read, a: Archivo): Response {
    Response(read.row.cid, read.id, read.row.estado, a.nombre, a.tipo, a.digest, a.registros)
  }

  // ----- look-ups -----

  predicate HasCid(db: Db, cid: Uuid) {
    exists id :: id in db.syncs && db.syncs[id].cid == cid
  }

  predicate HasDigest(db: Db, d: Digest) {
    exists k :: k in db.archivos && db.archivos[k].digest == d
  }

  predicate HasFile(db: Db, id: Uuid) {
    exists k :: k in db.archivos && db.archivos[k].syncId == id
  }

  /** `found` is a correct answer of the SELECT on `correlation_id`. */
  predicate FoundByCid(db: Db, cid: Uuid, found: Option<Uuid>) {
    match found
    case None => !HasCid(db, cid)
    case Some(id) => id in db.syncs && db.syncs[id].cid == cid
  }

  /** The sync `id` owns a file with digest `d`. */
  predicate OwnsDigest(db: Db, id: Uuid, d: Digest) {
    exists k :: k in db.archivos && db.archivos[k].syncId == id && db.archivos[k].digest == d
  }

  /** `found` is a correct answer of the SELECT through `archivos.any(checksum == d)`. */
  predicate FoundByDigest(db: Db, d: Digest, found: Option<Uuid>) {
    match found
    case None => !(exists id :: id in db.syncs && OwnsDigest(db, id, d))
    case Some(id) => id in db.syncs && OwnsDigest(db, id, d)
  }

  /** `pick` is a possible `archivos[0]` of the sync `id`: the query has no ORDER BY,
      so any file of the sync may come first, and there is none only when it has no file. */
  predicate FirstFile(db: Db, id: Uuid, pick: Option<nat>) {
    match pick
    case None => !HasFile(db, id)
    case Some(k) => k in db.archivos && db.archivos[k].syncId == id
  }

  // ----- transactions -----

  /** What an UPDATE leaves in a column: the ORM writes it only when the new value
      differs from the value the session loaded. */
  function Write<T(==)>(seen: T, wanted: T, current: T): T {
    if seen == wanted then current else wanted
  }

  /** The commit of `ingest_batch` violates a unique index (an UPDATE of an existing
      sync cannot violate the one on `correlation_id`). */
  predicate BatchClashes(db: Db, b: Batch, existing: Option<Read>) {
    HasDigest(db, b.digest) || (existing.None? && HasCid(db, b.cid))
  }

  function CompletedSync(b: Batch, clock: Clock): Sync {
    Sync(b.cid, clock.today, Completed, clock.iniciado, Some(clock.finalizado))
  }

  /** The sync row after the commit of `ingest_batch`: inserted, or updated column by column. */
  function CommittedSync(db: Db, b: Batch, existing: Option<Read>, clock: Clock): Sync
    requires existing.Some? ==> existing.value.id in db.syncs
  {
    match existing
    case None => CompletedSync(b, clock)
    case Some(read) =>
      var current := db.syncs[read.id];
      current.(fecha := Write(read.row.fecha, clock.today, current.fecha),
               estado := Write(read.row.estado, Completed, current.estado),
               iniciado := Write(read.row.iniciado, clock.iniciado, current.iniciado),
               finalizado := Write(read.row.finalizado, Some(clock.finalizado), current.finalizado))
  }

  function TargetId(existing: Option<Read>, newSync: Uuid): Uuid {
    if existing.Some? then existing.value.id else newSync
  }

  function FileOf(b: Batch, id: Uuid): Archivo {
    Archivo(id, b.nombre, b.tipo, b.digest, Accepted, b.registros)
  }

  /** The tables after `ingest_batch` commits its sync and its archivo in one transaction. */
  function CommitBatch(db: Db, b: Batch, existing: Option<Read>, newSync: Uuid, newFile: nat, clock: Clock): Db
    requires existing.Some? ==> existing.value.id in db.syncs
  {
    var id := TargetId(existing, newSync);
    db.(syncs := db.syncs[id := CommittedSync(db, b, existing, clock)],
        archivos := db.archivos[newFile := FileOf(b, id)])
  }

  function FailedParent(cid: Uuid, clock: Clock): Sync {
    Sync(cid, clock.today, Failed, clock.iniciado, None)
  }

  /** The tables after `persist_error_log` commits. */
  function CommitErrorLog(db: Db, cid: Uuid, codigo: Codigo, parentSeen: bool,
                          newSync: Uuid, newLog: nat, clock: Clock): Db
  {
    db.(syncs := if parentSeen then db.syncs else db.syncs[newSync := FailedParent(cid, clock)],
        logs := db.logs[newLog := LogRow(cid, codigo)])
  }

  function RetriedSync(read: Read, current: Sync): Sync {
    current.(estado := Write(read.row.estado, Running, current.estado),
             finalizado := Write(read.row.finalizado, None, current.finalizado))
  }

  /** The files with key in `ks` set to accepted, the others as they are. */
  function AcceptFiles(archivos: map<nat, Archivo>, ks: set<nat>): map<nat, Archivo> {
    map k | k in archivos :: if k in ks then archivos[k].(estado := Accepted) else archivos[k]
  }

  function RejectedFiles(archivos: map<nat, Archivo>, id: Uuid): set<nat> {
    set k | k in archivos && archivos[k].syncId == id && archivos[k].estado == FileRejected
  }

  // ----- integrity -----

  ghost predicate UniqueCids(db: Db) {
    forall i, j :: i in db.syncs && j in db.syncs && db.syncs[i].cid == db.syncs[j].cid ==> i == j
  }

  ghost predicate UniqueDigests(db: Db) {
    forall j, k :: j in db.archivos && k in db.archivos && db.archivos[j].digest == db.archivos[k].digest ==> j == k
  }

  /** Every file, log and action row points at an existing sync. */
  ghost predicate ForeignKeys(db: Db) {
    && (forall k :: k in db.archivos ==> db.archivos[k].syncId in db.syncs)
    && (forall k :: k in db.logs ==> HasCid(db, db.logs[k].cid))
    && (forall k :: k in db.acciones ==> db.acciones[k].syncId in db.syncs)
  }

  ghost predicate Integrity(db: Db) {
    UniqueCids(db) && UniqueDigests(db) && ForeignKeys(db)
  }

  /** What every estado says about its sync, under any interleaving. */
  ghost predicate Lifecycle(db: Db) {
    forall id :: id in db.syncs ==>
      && db.syncs[id].estado in {Running, Completed, Failed}
      && (db.syncs[id].estado == Completed ==> HasFile(db, id))
      && (db.syncs[id].estado == Failed ==> !HasFile(db, id) && db.syncs[id].finalizado == None)
  }

  ghost predicate SameFile(a: Archivo, b: Archivo) {
    a.(estado := b.estado) == b
  }

  /** Rows are never deleted, and apart from the status columns of a sync and the estado
      of a file they are never changed. */
  ghost predicate Extends(db: Db, db': Db) {
    && (forall id :: id in db.syncs ==> id in db'.syncs && db'.syncs[id].cid == db.syncs[id].cid)
    && (forall k :: k in db.archivos ==> k in db'.archivos && SameFile(db.archivos[k], db'.archivos[k]))
    && (forall k :: k in db.logs ==> k in db'.logs && db'.logs[k] == db.logs[k])
    && (forall k :: k in db.acciones ==> k in db'.acciones && db'.acciones[k] == db.acciones[k])
  }
}
