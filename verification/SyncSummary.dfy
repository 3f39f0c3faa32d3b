/** `archivos_resumen`, "total · rejected" per sync: computed from the embedded files, from one
    GROUP BY with a default, or by a count for one sync. The rows of a query come in any
    order, so each query result is some listing of the rows it selects. */
module SyncSummary {
  import opened Basics
  import opened Tables

  datatype Resumen = Resumen(total: nat, rejected: nat)

  function FilesOf(archivos: map<nat, Archivo>, id: Uuid): set<nat> {
    set k | k in archivos && archivos[k].syncId == id
  }

  /** `_resumen_for`: two SQL counts. */
  function CountFor(archivos: map<nat, Archivo>, id: Uuid): Resumen {
    Resumen(|FilesOf(archivos, id)|, |RejectedFiles(archivos, id)|)
  }

  /** The rows with the given keys, each once, in some order. */
  ghost predicate Lists(rows: seq<nat>, keys: set<nat>) {
    (forall i, j :: 0 <= i < j < |rows| ==> rows[i] != rows[j]) && forall k :: k in rows <==> k in keys
  }

  /** include_files: `len` and a sum over the embedded files. */
  function RejectedIn(archivos: map<nat, Archivo>, rows: seq<nat>): nat
    requires forall k :: k in rows ==> k in archivos
  {
    if rows == [] then 0
    else
      RejectedIn(archivos, rows[..|rows| - 1])
        + (if archivos[rows[|rows| - 1]].estado == FileRejected then 1 else 0)
  }

  function FromEmbedded(archivos: map<nat, Archivo>, rows: seq<nat>): Resumen
    requires forall k :: k in rows ==> k in archivos
  {
    Resumen(|rows|, RejectedIn(archivos, rows))
  }

  /** `resumen.get(sync.id, (0, 0))`. */
  function Lookup(groups: map<Uuid, Resumen>, id: Uuid): Resumen {
    if id in groups then groups[id] else Resumen(0, 0)
  }

  /** GROUP BY sincronizacion_id over the files of the listed syncs. */
  function Group(archivos: map<nat, Archivo>, rows: seq<nat>): map<Uuid, Resumen>
    requires forall k :: k in rows ==> k in archivos
  {
    if rows == [] then map[]
    else
      var before := Group(archivos, rows[..|rows| - 1]);
      var a := archivos[rows[|rows| - 1]];
      var r := Lookup(before, a.syncId);
      before[a.syncId := Resumen(r.total + 1, r.rejected + if a.estado == FileRejected then 1 else 0)]
  }

  /** The files of the syncs the page lists. */
  function FilesOfAll(archivos: map<nat, Archivo>, ids: set<Uuid>): set<nat> {
    set k | k in archivos && archivos[k].syncId in ids
  }

  // ----- the paths agree -----

  /** The files among `keys` of one sync, and the rejected ones. */
  function Among(archivos: map<nat, Archivo>, keys: set<nat>, id: Uuid): set<nat> {
    set k | k in keys && k in archivos && archivos[k].syncId == id
  }

  function RejectedAmong(archivos: map<nat, Archivo>, keys: set<nat>, id: Uuid): set<nat> {
    set k | k in keys && k in archivos && archivos[k].syncId == id && archivos[k].estado == FileRejected
  }

  /** One more row counts at most once. */
  lemma OneMore(archivos: map<nat, Archivo>, keys: set<nat>, last: nat, id: Uuid)
    requires last in keys && last in archivos
    ensures |Among(archivos, keys, id)|
      == |Among(archivos, keys - {last}, id)| + (if archivos[last].syncId == id then 1 else 0)
    ensures |RejectedAmong(archivos, keys, id)| == |RejectedAmong(archivos, keys - {last}, id)|
      + (if archivos[last].syncId == id && archivos[last].estado == FileRejected then 1 else 0)
  {
    assert Among(archivos, keys, id) == Among(archivos, keys - {last}, id)
      + if archivos[last].syncId == id then {last} else {};
    assert RejectedAmong(archivos, keys, id) == RejectedAmong(archivos, keys - {last}, id)
      + if archivos[last].syncId == id && archivos[last].estado == FileRejected then {last} else {};
  }

  lemma ListsPrefix(rows: seq<nat>, keys: set<nat>)
    requires Lists(rows, keys) && rows != []
    ensures Lists(rows[..|rows| - 1], keys - {rows[|rows| - 1]})
  {
    var n := |rows| - 1;
    forall k ensures k in rows[..n] <==> k in keys - {rows[n]} {
      if k in keys - {rows[n]} {
        var i :| 0 <= i < |rows| && rows[i] == k;
        assert rows[..n][i] == k;
      }
    }
  }

  lemma {:induction false} RejectedInCounts(archivos: map<nat, Archivo>, rows: seq<nat>, keys: set<nat>, id: Uuid)
    requires Lists(rows, keys) && forall k :: k in rows ==> k in archivos && archivos[k].syncId == id
    ensures |rows| == |Among(archivos, keys, id)| && RejectedIn(archivos, rows) == |RejectedAmong(archivos, keys, id)|
    decreases |rows|
  {
    if rows != [] {
      var n := |rows| - 1;
      assert rows[n] in rows;
      ListsPrefix(rows, keys);
      RejectedInCounts(archivos, rows[..n], keys - {rows[n]}, id);
      OneMore(archivos, keys, rows[n], id);
    }
  }

  /** The embedded-files path gives the two counts, in whatever order the files were loaded. */
  lemma EmbeddedAgrees(archivos: map<nat, Archivo>, rows: seq<nat>, id: Uuid)
    requires Lists(rows, FilesOf(archivos, id))
    ensures FromEmbedded(archivos, rows) == CountFor(archivos, id)
  {
    RejectedInCounts(archivos, rows, FilesOf(archivos, id), id);
    assert Among(archivos, FilesOf(archivos, id), id) == FilesOf(archivos, id);
    assert RejectedAmong(archivos, FilesOf(archivos, id), id) == RejectedFiles(archivos, id);
  }

  lemma {:induction false} GroupCounts(archivos: map<nat, Archivo>, rows: seq<nat>, keys: set<nat>, id: Uuid)
    requires Lists(rows, keys) && forall k :: k in rows ==> k in archivos
    ensures Lookup(Group(archivos, rows), id)
      == Resumen(|Among(archivos, keys, id)|, |RejectedAmong(archivos, keys, id)|)
    decreases |rows|
  {
    if rows != [] {
      var n := |rows| - 1;
      assert rows[n] in rows;
      ListsPrefix(rows, keys);
      GroupCounts(archivos, rows[..n], keys - {rows[n]}, id);
      OneMore(archivos, keys, rows[n], id);
    }
  }

  /** The GROUP BY path with its (0, 0) default gives the two counts of every listed sync, also of one
      that has no file. */
  lemma GroupByAgrees(archivos: map<nat, Archivo>, rows: seq<nat>, ids: set<Uuid>, id: Uuid)
    requires Lists(rows, FilesOfAll(archivos, ids)) && id in ids
    ensures Lookup(Group(archivos, rows), id) == CountFor(archivos, id)
  {
    GroupCounts(archivos, rows, FilesOfAll(archivos, ids), id);
    assert Among(archivos, FilesOfAll(archivos, ids), id) == FilesOf(archivos, id);
    assert RejectedAmong(archivos, FilesOfAll(archivos, ids), id) == RejectedFiles(archivos, id);
  }

  /** Whatever path computed it, a summary never shows more rejected files than files. */
  lemma RejectedAtMostTotal(archivos: map<nat, Archivo>, id: Uuid)
    ensures CountFor(archivos, id).rejected <= CountFor(archivos, id).total
  {
    SubsetSize(RejectedFiles(archivos, id), FilesOf(archivos, id));
  }

  /** FORCE_SKIP_VALIDATION, committed on the rejected files it loaded: the sync shows no rejected file
      and as many files as before, and the summary of no other sync changes. */
  lemma ForceSkipClearsRejected(db: Db, id: Uuid, other: Uuid)
    requires other != id
    ensures var after := AcceptFiles(db.archivos, RejectedFiles(db.archivos, id));
      && CountFor(after, id) == Resumen(CountFor(db.archivos, id).total, 0)
      && CountFor(after, other) == CountFor(db.archivos, other)
  {
    var after := AcceptFiles(db.archivos, RejectedFiles(db.archivos, id));
    assert FilesOf(after, id) == FilesOf(db.archivos, id);
    assert RejectedFiles(after, id) == {};
    assert FilesOf(after, other) == FilesOf(db.archivos, other);
    assert RejectedFiles(after, other) == RejectedFiles(db.archivos, other);
  }
}
