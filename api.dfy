/** The submission API: `POST /job/:op` stores each uploaded file and then
    enqueues the job, `GET /job/:id` projects the queued job onto
    `{state, progress, result}`, and `GET /download/:key` answers with a signed
    URL for a stored key. The object store and the queue are the server's
    fields; fresh identifiers, the outcome of each store and queue call and the
    URL signer are parameters. */
module Api {
  import opened Text
  import opened Protocol

  /** The options the job is added with. */
  datatype JobOptions = JobOptions(jobId: string, removeOnComplete: bool, removeOnFail: bool, attempts: nat)

  /** A job as the queue holds it: its name, payload and options, and what the
      worker side has reported so far. */
  datatype QueueEntry = QueueEntry(
    name: string, data: JobData, opts: JobOptions,
    state: string, progress: Option<int>, returnvalue: Option<JobResult>)

  /** The JSON bodies the API answers with. */
  datatype Body =
    | Created(id: string)       // {id}
    | Error(error: string)      // {error}
    | Status(status: JobStatus) // {state, ...}
    | Url(url: string)          // {url}

  datatype Response = Response(code: nat, body: Body)

  /** `e?.message || 'server_error'`: an empty or absent message is replaced. */
  function ErrorText(message: string): (r: string)
    ensures r != ""
    ensures message != "" ==> r == message
    ensures message == "" ==> r == "server_error"
  {
    if message == "" then "server_error" else message
  }

  /** The queue's state of a job that was just added. */
  const Waiting := "waiting"

  // ---------------------------------------------------------------------------
  // Input keys

  /** `in/<id>/<uuid>-<originalname>`. */
  function InputKey(id: string, uuid: string, name: string): string {
    "in/" + id + "/" + uuid + "-" + name
  }

  /** The `inputs` of the payload: one entry per uploaded file, in upload order. */
  function InputsOf(id: string, uuids: seq<string>, files: seq<Upload>): seq<InputRef>
    requires |uuids| == |files|
  {
    seq(|files|, i requires 0 <= i < |files| =>
      InputRef(InputKey(id, uuids[i], files[i].originalname), files[i].originalname, files[i].mimetype))
  }

  /** Each input keeps its file's name and declared type, in upload order, under a
      key that lies below `in/<id>/`. */
  lemma InputsFollowUploads(id: string, uuids: seq<string>, files: seq<Upload>)
    requires |uuids| == |files|
    ensures |InputsOf(id, uuids, files)| == |files|
    ensures forall i :: 0 <= i < |files| ==>
      var input := InputsOf(id, uuids, files)[i];
      input.name == files[i].originalname && input.mimetype == files[i].mimetype
        && StartsWith(input.key, "in/" + id + "/")
        && input.key[|id| + 4..] == uuids[i] + "-" + files[i].originalname
  {
    forall i | 0 <= i < |files|
      ensures var input := InputsOf(id, uuids, files)[i];
        StartsWith(input.key, "in/" + id + "/") && input.key[|id| + 4..] == uuids[i] + "-" + files[i].originalname
    {
      var k := InputKey(id, uuids[i], files[i].originalname);
      assert k == ("in/" + id + "/") + (uuids[i] + "-" + files[i].originalname);
      StartsWithPrepended("in/" + id + "/", uuids[i] + "-" + files[i].originalname);
    }
  }

  /** Identifiers of one length give different keys to different identifiers,
      whatever the file names, so no input of a job overwrites another. */
  lemma InputKeysDistinct(id: string, u1: string, n1: string, u2: string, n2: string)
    requires |u1| == |u2| && u1 != u2
    ensures InputKey(id, u1, n1) != InputKey(id, u2, n2)
  {
    var k1 := InputKey(id, u1, n1);
    var k2 := InputKey(id, u2, n2);
    var p := |id| + 4;
    assert k1 == ("in/" + id + "/") + u1 + ("-" + n1);
    assert k2 == ("in/" + id + "/") + u2 + ("-" + n2);
    assert k1[p..p + |u1|] == u1;
    assert k2[p..p + |u2|] == u2;
  }

  /** One part of the body as the middleware reads it: the name and type as
      the browser wrote them on the wire, and the file's bytes. */
  function UploadOf(part: FormPart): Upload {
    Upload(WireFilename(part.filename), WireType(part.file.mimeType), part.file.bytes)
  }

  /** `upload.array("files")`: the parts of the multipart body as uploads, in
      order; a part under any other field name rejects the request before the
      handler runs. */
  function UploadsOf(parts: seq<FormPart>): (r: Option<seq<Upload>>)
    ensures r.Some? <==> forall i :: 0 <= i < |parts| ==> parts[i].field == "files"
    ensures r.Some? ==> |r.value| == |parts|
    ensures r.Some? ==> forall i :: 0 <= i < |parts| ==>
      r.value[i] == Upload(WireFilename(parts[i].filename), WireType(parts[i].file.mimeType), parts[i].file.bytes)
  {
    if parts == [] then Some([])
    else if parts[0].field != "files" then None
    else match UploadsOf(parts[1..])
      case None => None
      case Some(rest) =>
        assert forall i :: 1 <= i < |parts| ==> parts[i] == parts[1..][i - 1];
        Some([UploadOf(parts[0])] + rest)
  }

  // ---------------------------------------------------------------------------
  // The store writes

  function Stored(f: Upload): StoredObject {
    StoredObject(f.buffer, Some(f.mimetype))
  }

  /** The bucket after writing `files[i]` under `inputs[i].key`, one after another. */
  function PutAll(bucket: Bucket, inputs: seq<InputRef>, files: seq<Upload>): Bucket
    requires |inputs| == |files|
  {
    if files == [] then bucket
    else PutAll(bucket, inputs[..|inputs| - 1], files[..|files| - 1])[inputs[|inputs| - 1].key := Stored(files[|files| - 1])]
  }

  predicate DistinctKeys(inputs: seq<InputRef>) {
    forall i, j :: 0 <= i < j < |inputs| ==> inputs[i].key != inputs[j].key
  }

  /** With distinct keys, every file is stored under its own key with its
      declared type: no later write of the same request overwrites it. */
  lemma {:induction false} PutAllStoresEachInput(bucket: Bucket, inputs: seq<InputRef>, files: seq<Upload>, i: nat)
    requires |inputs| == |files| && DistinctKeys(inputs) && i < |files|
    ensures inputs[i].key in PutAll(bucket, inputs, files)
    ensures PutAll(bucket, inputs, files)[inputs[i].key] == Stored(files[i])
  {
    var n := |files| - 1;
    if i < n {
      var ins, fs := inputs[..n], files[..n];
      assert ins[i] == inputs[i] && fs[i] == files[i];
      assert inputs[i].key != inputs[n].key;
      PutAllStoresEachInput(bucket, ins, fs, i);
    }
  }

  /** The inputs of a request whose identifiers are distinct and of one length
      (as the random UUIDs are) have distinct keys, so every uploaded file ends up
      in the bucket under its own key. */
  lemma InputsOfDistinctKeys(id: string, uuids: seq<string>, files: seq<Upload>)
    requires |uuids| == |files|
    requires forall i, j :: 0 <= i < j < |uuids| ==> uuids[i] != uuids[j] && |uuids[i]| == |uuids[j]|
    ensures DistinctKeys(InputsOf(id, uuids, files))
  {
    var inputs := InputsOf(id, uuids, files);
    forall i, j | 0 <= i < j < |inputs|
      ensures inputs[i].key != inputs[j].key
    {
      InputKeysDistinct(id, uuids[i], files[i].originalname, uuids[j], files[j].originalname);
    }
  }

  /** Storing a request's uploads under its inputs' keys leaves each file in the
      bucket with its declared type. */
  lemma UploadsAreStored(bucket: Bucket, id: string, uuids: seq<string>, files: seq<Upload>, i: nat)
    requires |uuids| == |files| && i < |files|
    requires forall i, j :: 0 <= i < j < |uuids| ==> uuids[i] != uuids[j] && |uuids[i]| == |uuids[j]|
    ensures var inputs := InputsOf(id, uuids, files);
      inputs[i].key in PutAll(bucket, inputs, files) && PutAll(bucket, inputs, files)[inputs[i].key] == Stored(files[i])
  {
    InputsOfDistinctKeys(id, uuids, files);
    PutAllStoresEachInput(bucket, InputsOf(id, uuids, files), files, i);
  }

  /** Every object of the bucket under a key no input uses is left as it was,
      and no other key appears. */
  lemma {:induction false} PutAllKeepsOthers(bucket: Bucket, inputs: seq<InputRef>, files: seq<Upload>, k: string)
    requires |inputs| == |files|
    requires forall i :: 0 <= i < |inputs| ==> inputs[i].key != k
    ensures k in PutAll(bucket, inputs, files) <==> k in bucket
    ensures k in bucket ==> PutAll(bucket, inputs, files)[k] == bucket[k]
  {
    if files != [] {
      var n := |files| - 1;
      var ins := inputs[..n];
      assert forall i :: 0 <= i < |ins| ==> ins[i] == inputs[i];
      assert inputs[n].key != k;
      PutAllKeepsOthers(bucket, ins, files[..n], k);
    }
  }

  // ---------------------------------------------------------------------------
  // The server

  /** The options the submission handler adds jobs with: `{jobId: id,
      removeOnComplete: true, removeOnFail: false, attempts: 1}`. */
  function OptionsAsWritten(id: string): JobOptions {
    JobOptions(id, true, false, 1)
  }

  /** The corrected options: as written, except that a completed job is kept
      so that its result can still be polled. */
  function SubmitOptions(id: string): JobOptions {
    JobOptions(id, false, false, 1)
  }

  /** The options of a submission: as written, or corrected. */
  function OptionsFor(id: string, asWritten: bool): (o: JobOptions)
    ensures o.jobId == id && !o.removeOnFail && o.attempts == 1
    ensures o.removeOnComplete <==> asWritten
  {
    if asWritten then OptionsAsWritten(id) else SubmitOptions(id)
  }

  /** The entry `queue.add(op, {id, op, inputs}, opts)` creates. */
  function NewEntry(op: string, data: JobData, opts: JobOptions): QueueEntry {
    QueueEntry(op, data, opts, Waiting, None, None)
  }

  /** The queue finishing job `id` with `result`: a job added with
      `removeOnComplete` is deleted there and then; any other stays, `completed`,
      with its result. Other jobs are untouched. */
  function Complete(queue: map<string, QueueEntry>, id: string, result: JobResult): (q: map<string, QueueEntry>)
    requires id in queue
    ensures id in q <==> !queue[id].opts.removeOnComplete
    ensures id in q ==> q[id].state == "completed" && q[id].returnvalue == Some(result)
    ensures forall other :: other in queue && other != id ==> other in q && q[other] == queue[other]
    ensures forall other :: other in q ==> other in queue
  {
    if queue[id].opts.removeOnComplete then queue - {id}
    else queue[id := queue[id].(state := "completed", returnvalue := Some(result))]
  }

  function NoFault(faults: seq<Option<string>>): bool {
    forall i :: 0 <= i < |faults| ==> faults[i].None?
  }

  /** The first store write that throws, if any. */
  function FirstFault(faults: seq<Option<string>>): (r: Option<nat>)
    ensures r.None? <==> NoFault(faults)
    ensures r.Some? ==> r.value < |faults| && faults[r.value].Some?
    ensures r.Some? ==> NoFault(faults[..r.value])
  {
    if faults == [] then None
    else if faults[0].Some? then Some(0)
    else match FirstFault(faults[1..])
      case None => None
      case Some(k) =>
        assert faults[..k + 1] == [faults[0]] + faults[1..][..k];
        Some(k + 1)
  }

  class ApiServer {
    var bucket: Bucket
    var queue: map<string, QueueEntry>

    constructor (bucket: Bucket, queue: map<string, QueueEntry>)
      ensures this.bucket == bucket && this.queue == queue
    {
      this.bucket := bucket;
      this.queue := queue;
    }

    /** The upload loop of `POST /job/:op`: stores the files one by one and stops at
        the first store that fails, returning its index. */
    method StoreInputs(id: string, uuids: seq<string>, files: seq<Upload>, putFaults: seq<Option<string>>)
      returns (inputs: seq<InputRef>, fault: Option<nat>)
      requires |uuids| == |files| && |putFaults| == |files|
      modifies this
      ensures queue == old(queue)
      ensures fault == FirstFault(putFaults)
      ensures fault.Some? ==>
        bucket == PutAll(old(bucket), InputsOf(id, uuids, files)[..fault.value], files[..fault.value])
      ensures fault.None? ==>
        inputs == InputsOf(id, uuids, files) && bucket == PutAll(old(bucket), inputs, files)
    {
      inputs := [];
      for i := 0 to |files|
        invariant inputs == InputsOf(id, uuids, files)[..i]
        invariant NoFault(putFaults[..i])
        invariant bucket == PutAll(old(bucket), inputs, files[..i])
        invariant queue == old(queue)
      {
        if putFaults[i].Some? {
          assert FirstFault(putFaults) == Some(i);
          fault := Some(i);
          return;
        }
        var input := InputRef(InputKey(id, uuids[i], files[i].originalname), files[i].originalname, files[i].mimetype);
        bucket := bucket[input.key := Stored(files[i])];
        assert files[..i + 1][..i] == files[..i];
        assert putFaults[..i + 1] == putFaults[..i] + [putFaults[i]];
        inputs := inputs + [input];
      }
      assert files[..|files|] == files && putFaults[..|files|] == putFaults;
      assert inputs == InputsOf(id, uuids, files);
      fault := None;
    }

    /** `POST /job/:op` with the uploaded `files`. `id` and `uuids` are the fresh
        identifiers, `putFaults[i]` the message the i-th store write throws (if it
        throws) and `addFault` that of the queue call. The op is not checked.
        With `asWritten` the job is added with the options of the source,
        `removeOnComplete` included; otherwise with the corrected ones. */
    method PostJob(op: string, files: seq<Upload>, id: string, uuids: seq<string>,
                   putFaults: seq<Option<string>>, addFault: Option<string>, asWritten: bool)
      returns (res: Response)
      requires |uuids| == |files| && |putFaults| == |files|
      modifies this
      ensures files == [] ==>
        res == Response(400, Error("no_files")) && bucket == old(bucket) && queue == old(queue)
      ensures res.code == 200 <==> files != [] && NoFault(putFaults) && addFault.None?
      ensures res.code != 200 ==> queue == old(queue)
      ensures files != [] && FirstFault(putFaults).Some? ==>
        var k := FirstFault(putFaults).value;
        res == Response(500, Error(ErrorText(putFaults[k].value)))
          && bucket == PutAll(old(bucket), InputsOf(id, uuids, files)[..k], files[..k])
      ensures files != [] && NoFault(putFaults) ==>
        bucket == PutAll(old(bucket), InputsOf(id, uuids, files), files)
      ensures files != [] && NoFault(putFaults) && addFault.Some? ==>
        res == Response(500, Error(ErrorText(addFault.value)))
      ensures res.code == 200 ==>
        res.body == Created(id)
          && queue == (if id in old(queue) then old(queue)
                       else old(queue)[id := NewEntry(op, JobData(id, op, InputsOf(id, uuids, files)), OptionsFor(id, asWritten))])
    {
      if files == [] {
        res := Response(400, Error("no_files"));
        return;
      }
      var inputs, fault := StoreInputs(id, uuids, files, putFaults);
      if fault.Some? {
        res := Response(500, Error(ErrorText(putFaults[fault.value].value)));
        return;
      }
      if addFault.Some? {
        res := Response(500, Error(ErrorText(addFault.value)));
        return;
      }
      if id !in queue {
        queue := queue[id := NewEntry(op, JobData(id, op, inputs), OptionsFor(id, asWritten))];
      }
      res := Response(200, Created(id));
    }

    /** The worker completes job `id` with `result` (see `Complete`). */
    method Finish(id: string, result: JobResult)
      requires id in queue
      modifies this
      ensures queue == Complete(old(queue), id, result) && bucket == old(bucket)
    {
      queue := Complete(queue, id, result);
    }
  }

  // ---------------------------------------------------------------------------
  // Polling

  /** `job.progress || 0`. */
  function ProgressOrZero(progress: Option<int>): int {
    if progress.Some? then progress.value else 0
  }

  /** `GET /job/:id`. `lookupFails` says the job lookup threw (it is caught and read
      as "no job"); `stateFault` is the message `getState` throws, if it throws. */
  function PollJob(queue: map<string, QueueEntry>, id: string, lookupFails: bool, stateFault: Option<string>): (r: Response)
    ensures r.code == 404 <==> lookupFails || id !in queue
    ensures r.code == 404 ==> r.body == Status(NotFound)
    ensures r.code == 500 <==> !lookupFails && id in queue && stateFault.Some?
    ensures r.code == 500 ==> r.body == Status(Broken(ErrorText(stateFault.value)))
    ensures r.code == 200 ==> id in queue && r.body.Status? && r.body.status.Found?
    ensures r.code == 200 ==> r.body.status.state == queue[id].state
    ensures r.code == 200 ==> r.body.status.result == queue[id].returnvalue
    ensures r.code == 200 ==> (queue[id].progress.None? ==> r.body.status.progress == 0)
    ensures r.code == 200 && queue[id].progress.Some? ==> r.body.status.progress == queue[id].progress.value
    ensures !lookupFails && id in queue && stateFault.None? ==> r.code == 200
  {
    if lookupFails || id !in queue then Response(404, Status(NotFound))
    else if stateFault.Some? then Response(500, Status(Broken(ErrorText(stateFault.value))))
    else
      var job := queue[id];
      Response(200, Status(Found(job.state, ProgressOrZero(job.progress), job.returnvalue)))
  }

  /** A job that was never issued is answered with `not_found`, never an error. */
  lemma PollUnknownJob(queue: map<string, QueueEntry>, id: string, lookupFails: bool, stateFault: Option<string>)
    requires id !in queue
    ensures PollJob(queue, id, lookupFails, stateFault) == Response(404, Status(NotFound))
  {
  }

  // ---------------------------------------------------------------------------
  // Download

  /** The lifetime handed to the URL signer: `Number(PUBLIC_DOWNLOAD_TTL || 3600)`. */
  datatype Ttl = Seconds(n: nat) | Unparsed(raw: string)

  function ParseTtl(env: Option<string>): (r: Ttl)
    ensures env.None? || env == Some("") ==> r == Seconds(3600)
    ensures env.Some? && env.value != "" && AllDigits(env.value) ==> r == Seconds(DigitsValue(env.value))
  {
    if env.None? || env.value == "" then Seconds(3600)
    else if AllDigits(env.value) then Seconds(DigitsValue(env.value))
    else Unparsed(env.value)
  }

  /** A lifetime configured as a decimal number is read back as that number. */
  lemma ParseTtlRoundTrip(n: nat)
    ensures ParseTtl(Some(NatToString(n))) == Seconds(n)
  {
    NatToStringRoundTrip(n);
  }

  /** `GET /download/:key`: the signer's URL for the key and the configured
      lifetime, or a 500 with the signer's message. */
  function Download(key: string, env: Option<string>, sign: (string, Ttl) -> Result<string, string>): (r: Response)
    ensures r.code == 200 <==> sign(key, ParseTtl(env)).Success?
    ensures r.code == 200 ==> r.body == Url(sign(key, ParseTtl(env)).value)
    ensures r.code != 200 ==> r == Response(500, Error(ErrorText(sign(key, ParseTtl(env)).error)))
  {
    match sign(key, ParseTtl(env))
    case Success(url) => Response(200, Url(url))
    case Failure(message) => Response(500, Error(ErrorText(message)))
  }

  // ---------------------------------------------------------------------------
  // Routing of `/download/:key`

  /** `decodeURIComponent`, which Express applies to a route parameter: every
      `%` must start an escape of two hexadecimal digits, or the parameter does
      not decode (Express then answers 400 without running the handler); the
      escape of a character below 0x80 becomes that character. */
  function PercentDecode(s: string): (r: Option<string>)
    ensures r.Some? ==> |r.value| <= |s|
    ensures '%' !in s ==> r == Some(s)
    decreases |s|
  {
    if s == [] then Some([])
    else if s[0] != '%' then
      assert forall c :: c in s[1..] ==> c in s;
      assert s == [s[0]] + s[1..];
      match PercentDecode(s[1..])
      case None => None
      case Some(t) => Some([s[0]] + t)
    else if |s| < 3 || !IsHexDigit(s[1]) || !IsHexDigit(s[2]) then None
    else
      var v := 16 * HexDigitValue(s[1]) + HexDigitValue(s[2]);
      match PercentDecode(s[3..])
      case None => None
      case Some(t) => Some((if v < 0x80 then [v as char] else s[..3]) + t)
  }

  /** The `key` the route `/download/:key` hands its handler for a request
      path: the path must be `/download/` followed by one non-empty segment
      without `/`, optionally followed by one `/`, and the segment must decode.
      `None` when the handler does not run. */
  function DownloadRouteKey(path: string): (r: Option<string>)
    ensures r.Some? ==> StartsWith(path, "/download/")
  {
    if !StartsWith(path, "/download/") then None
    else
      var rest := path[10..];
      var segment := if rest != [] && rest[|rest| - 1] == '/' then rest[..|rest| - 1] else rest;
      if segment == [] || '/' in segment then None else PercentDecode(segment)
  }
}
