/** `POST /ingest`: the checks in front of the protocol, and the error handler behind it. SHA-256 and
    the JSON parser are parameters: any functions of the bytes. */
module Endpoint {
  import opened Basics
  import opened Tables
  import opened Protocol
  import opened Service
  import Retry

  type Byte = x: nat | x < 256

  /** What `json.loads` and the shape check make of a payload. */
  datatype Parsed = Malformed | WrongShape | Records(count: nat)

  datatype Stream = Stream(chunks: seq<seq<Byte>>, reset: bool) // a reset comes after the chunks

  datatype Headers = Headers(cid: Option<Uuid>, nombre: string, tipo: TipoArchivo, claimed: Digest)

  /** The functions foreign code computes: the streaming hash, the same hash in the process pool, and
      the JSON parser. */
  datatype Externals = Externals(sha: seq<Byte> -> Digest, shaProcess: seq<Byte> -> Digest,
                                 parse: seq<Byte> -> Parsed)

  /** The outcome of everything that happens before a connection is taken; a rejection is logged
      under a correlation_id when it has one. */
  datatype Checked = Passed(batch: Batch) | Refused(codigo: Codigo, logged: Option<Uuid>)

  function Joined(chunks: seq<seq<Byte>>): seq<Byte> {
    if chunks == [] then [] else Joined(chunks[..|chunks| - 1]) + chunks[|chunks| - 1]
  }

  lemma {:induction false} JoinedAppend(xs: seq<seq<Byte>>, ys: seq<seq<Byte>>)
    ensures Joined(xs + ys) == Joined(xs) + Joined(ys)
    decreases |ys|
  {
    if ys == [] {
      assert xs + ys == xs;
    } else {
      var n := |ys| - 1;
      assert (xs + ys)[..|xs| + n] == xs + ys[..n];
      JoinedAppend(xs, ys[..n]);
    }
  }

  class IncrementalSha256 {
    const sha: seq<Byte> -> Digest
    var fed: seq<Byte>

    constructor (sha: seq<Byte> -> Digest)
      ensures this.sha == sha && fed == []
    {
      this.sha, fed := sha, [];
    }

    method Update(chunk: seq<Byte>)
      modifies this
      ensures fed == old(fed) + chunk
    {
      fed := fed + chunk;
    }

    method HexDigest() returns (d: Digest)
      ensures d == sha(fed)
    {
      d := sha(fed);
    }
  }

  /** `read_body_and_hash`: None is a NetworkResetError. The digest is that of the whole payload, however it
      was cut into chunks, and no partial digest is ever returned. */
  method ReadBodyAndHash(stream: Stream, sha: seq<Byte> -> Digest) returns (body: Option<(Digest, seq<Byte>)>)
    ensures body == if stream.reset then None else Some((sha(Joined(stream.chunks)), Joined(stream.chunks)))
  {
    var hasher := new IncrementalSha256(sha);
    var chunks: seq<seq<Byte>> := [];
    for i := 0 to |stream.chunks|
      invariant chunks == stream.chunks[..i] && hasher.fed == Joined(chunks) && hasher.sha == sha
    {
      assert stream.chunks[..i + 1][..i] == stream.chunks[..i];
      hasher.Update(stream.chunks[i]);
      chunks := chunks + [stream.chunks[i]];
    }
    if stream.reset {
      return None;
    }
    assert chunks == stream.chunks;
    var digest := hasher.HexDigest();
    return Some((digest, Joined(chunks)));
  }

  lemma JoinedOne(x: seq<Byte>)
    ensures Joined([x]) == x
  {
    assert Joined([x]) == Joined([x][..0]) + x == [] + x;
  }

  /** Cutting a chunk in two changes nothing of what is read: only the bytes count. */
  lemma ChunkingDoesNotMatter(before: seq<seq<Byte>>, x: seq<Byte>, y: seq<Byte>, behind: seq<seq<Byte>>)
    ensures Joined(before + [x, y] + behind) == Joined(before + [x + y] + behind)
  {
    assert [x, y] == [x] + [y];
    JoinedAppend(before + [x, y], behind);
    JoinedAppend(before, [x, y]);
    JoinedAppend([x], [y]);
    JoinedOne(x);
    JoinedOne(y);
    JoinedAppend(before + [x + y], behind);
    JoinedAppend(before, [x + y]);
    JoinedOne(x + y);
  }

  predicate DigestsMatch(h: Headers, body: seq<Byte>, f: Externals) {
    f.sha(body) == h.claimed && f.shaProcess(body) == h.claimed
  }

  /** What a request must be to get past the checks. */
  predicate Acceptable(h: Headers, stream: Stream, f: Externals) {
    var body := Joined(stream.chunks);
    !stream.reset && DigestsMatch(h, body, f) && f.parse(body).Records?
  }

  /** The checks of `ingest` up to the connection. `generated` is the uuid4 used without a header. */
  method Check(h: Headers, stream: Stream, f: Externals, generated: Uuid) returns (c: Checked)
    ensures var body, cid := Joined(stream.chunks), if h.cid.Some? then h.cid.value else generated;
      match c
      case Passed(b) =>
        && !stream.reset && DigestsMatch(h, body, f)
        && f.parse(body).Records? && b == Batch(cid, h.nombre, h.tipo, h.claimed, f.parse(body).count)
      case Refused(codigo, logged) =>
        && (codigo == NetworkReset <==> stream.reset)
        && (codigo == ChecksumMismatch <==> !stream.reset && !DigestsMatch(h, body, f))
        && (codigo == JsonMalformed <==> !stream.reset && DigestsMatch(h, body, f) && f.parse(body).Malformed?)
        && (codigo == SchemaValidation <==> !stream.reset && DigestsMatch(h, body, f) && f.parse(body).WrongShape?)
        && codigo in {NetworkReset, ChecksumMismatch, JsonMalformed, SchemaValidation}
        && logged == (if stream.reset then h.cid else Some(cid))
  {
    var cid := if h.cid.Some? then h.cid.value else generated;
    var read := ReadBodyAndHash(stream, f.sha);
    if read.None? {
      return Refused(NetworkReset, h.cid);
    }
    var (digest, payload) := read.value;
    if digest != h.claimed {
      return Refused(ChecksumMismatch, Some(cid));
    }
    if f.shaProcess(payload) != digest {
      return Refused(ChecksumMismatch, Some(cid));
    }
    match f.parse(payload) {
      case Malformed => c := Refused(JsonMalformed, Some(cid));
      case WrongShape => c := Refused(SchemaValidation, Some(cid));
      case Records(n) => c := Passed(Batch(cid, h.nombre, h.tipo, digest, n));
    }
  }

  /** How the acquisition of the first connection ends. */
  function Acquisition(engine: Retry.Engine, policy: Retry.Policy): Retry.Result {
    Retry.Acquire(engine.script, engine.draws, policy, 0).result
  }

  /** The correlation_id a request runs and is logged under. */
  function CidOf(h: Headers, generated: Uuid): Uuid {
    if h.cid.Some? then h.cid.value else generated
  }

  /** `codigo` is the code of the first check that the request fails. */
  predicate RejectedAs(h: Headers, stream: Stream, f: Externals, codigo: Codigo) {
    var body := Joined(stream.chunks);
    match codigo
    case NetworkReset => stream.reset
    case ChecksumMismatch => !stream.reset && (f.sha(body) != h.claimed || f.shaProcess(body) != h.claimed)
    case JsonMalformed =>
      !stream.reset && f.sha(body) == f.shaProcess(body) == h.claimed && f.parse(body) == Malformed
    case SchemaValidation =>
      !stream.reset && f.sha(body) == f.shaProcess(body) == h.claimed && f.parse(body) == WrongShape
    case _ => false
  }

  /** What the protocol answered for a request with this response. */
  function Answered(status: int, body: Option<Response>): Outcome {
    if body.Some? then Http(status, body.value) else IntegrityViolation
  }

  /** `ingest` with the handlers behind it, while other requests run. A request reaches the protocol
      exactly when it passed every check and got its connection, and then the protocol answers; a
      rejected one with a correlation_id is handed to the error logger with the code of the check it failed
      and takes no connection here; an exhausted acquisition is a 503 and a non-retryable exception out of
      it a 500, and both leave the tables as they were. Every connection taken is returned, except when the
      liveness probe raises that exception. */
  method PostIngest(server: Server, engine: Retry.Engine, policy: Retry.Policy, rid: Rid, h: Headers,
                    stream: Stream, f: Externals, generated: Uuid, turns: seq<nat>, clock: Clock)
    returns (status: int, body: Option<Response>)
    requires server.Valid() && rid !in server.reqs && OfOthers(server.pending, rid) && |turns| == 8
    modifies server, engine
    ensures server.Valid() && status in {200, 201, 422, 500, 503}
    ensures rid in server.reqs && server.reqs[rid].Ingest? <==>
      Acceptable(h, stream, f) && Acquisition(engine, policy) == Retry.Connected
    ensures rid in server.reqs && server.reqs[rid].Ingest? ==>
      && server.reqs[rid].batch == Batch(cid := CidOf(h, generated), nombre := h.nombre, tipo := h.tipo,
                                         digest := h.claimed, registros := server.reqs[rid].batch.registros)
      && f.parse(Joined(stream.chunks)) == Records(server.reqs[rid].batch.registros)
      && (status == 201 <==> server.reqs[rid].ph.Created?)
      && (status == 200 <==> server.reqs[rid].ph.Replayed?)
      && (status == 422 <==> server.reqs[rid].ph.Reraised?)
      && OutcomeOf(server.reqs[rid].ph, Answered(status, body))
      && (old(server.pending) == [] ==> IngestedAlone(old(server.View()).db, server.View().db, server.reqs[rid].batch,
                                                      clock, Answered(status, body)))
    ensures body.Some? <==> status in {200, 201}
    ensures rid in server.reqs && server.reqs[rid].ErrorLog? <==>
      !Acceptable(h, stream, f) && (stream.reset ==> h.cid.Some?)
    ensures rid in server.reqs && server.reqs[rid].ErrorLog? ==>
      && Final(server.reqs[rid]) && server.reqs[rid].cid == CidOf(h, generated)
      && RejectedAs(h, stream, f, server.reqs[rid].codigo)
      && (old(server.pending) == [] ==> ErrorLogged(old(server.View()).db, server.View().db, server.reqs[rid].cid,
                                                    server.reqs[rid].codigo, clock))
    ensures !Acceptable(h, stream, f) ==> status == 422 && engine.connects == old(engine.connects)
    ensures status == 503 <==> Acceptable(h, stream, f) && Acquisition(engine, policy) == Retry.PoolExhausted
    ensures status == 500 <==> Acceptable(h, stream, f) && Acquisition(engine, policy) == Retry.Raised
    ensures rid !in server.reqs ==> server.View() == old(server.View())
    ensures engine.Open() == old(engine.Open())
      + (if Acceptable(h, stream, f) && engine.LeaksOnProbe(policy) then 1 else 0)
  {
    var checked := Check(h, stream, f, generated);
    body := None;
    match checked {
      case Refused(codigo, logged) =>
        status := 422;
        var _ := server.PersistErrorLog(rid, logged, codigo, turns[..2], clock);
      case Passed(b) =>
        Retry.ConnectionsAreConserved(engine.script, engine.draws, policy);
        var acquired := engine.AcquireWithRetry(policy);
        if acquired != Retry.Connected {
          status := if acquired == Retry.PoolExhausted then 503 else 500;
          return;
        }
        var out := server.IngestBatch(rid, b, turns, clock);
        engine.Close();
        match out {
          case Http(code, content) => status, body := code, Some(content);
          case IntegrityViolation => status := 422;
        }
    }
  }
}
