/** The values that cross component boundaries: stored objects, the queued job
    payload, the job result and the multipart form the web client sends. */
module Protocol {
  import opened Text

  /** One object of the bucket; outputs are written without a content type. */
  datatype StoredObject = StoredObject(body: seq<Byte>, contentType: Option<string>)

  type Bucket = map<string, StoredObject>

  /** One entry of the job payload's `inputs`. */
  datatype InputRef = InputRef(key: string, name: string, mimetype: string)

  /** The payload `{id, op, inputs}` added to the `jobs` queue. */
  datatype JobData = JobData(id: string, op: string, inputs: seq<InputRef>)

  /** What a completed job returns: `{downloadKey}`. */
  datatype JobResult = JobResult(downloadKey: string)

  /** A browser `File`. */
  datatype File = File(name: string, mimeType: string, bytes: seq<Byte>)

  /** One `append(field, file, filename)` of a `FormData`. */
  datatype FormPart = FormPart(field: string, file: File, filename: string)

  /** The `filename` parameter a browser writes into a multipart/form-data
      body: `"`, CR and LF are written as `%22`, `%0D` and `%0A`. */
  function WireFilename(name: string): string {
    if name == [] then "" else WireChar(name[0]) + WireFilename(name[1..])
  }

  /** How one character of a file name is written. */
  function WireChar(c: char): (r: string)
    ensures '"' !in r && '\r' !in r && '\n' !in r
    ensures c != '"' && c != '\r' && c != '\n' ==> r == [c]
  {
    if c == '"' then "%22" else if c == '\r' then "%0D" else if c == '\n' then "%0A" else [c]
  }

  /** The written name holds no `"`, CR or LF. */
  lemma {:induction false} WireFilenameEscapes(name: string)
    ensures var r := WireFilename(name); '"' !in r && '\r' !in r && '\n' !in r
    decreases |name|
  {
    if name != [] {
      WireFilenameEscapes(name[1..]);
    }
  }

  /** A name without `"`, CR or LF is written as it is. */
  lemma {:induction false} WireFilenamePlain(name: string)
    requires '"' !in name && '\r' !in name && '\n' !in name
    ensures WireFilename(name) == name
    decreases |name|
  {
    if name != [] {
      assert forall c :: c in name[1..] ==> c in name;
      WireFilenamePlain(name[1..]);
      assert name == [name[0]] + name[1..];
    }
  }

  /** The escaping works character by character. */
  lemma {:induction false} WireFilenameConcat(a: string, b: string)
    ensures WireFilename(a + b) == WireFilename(a) + WireFilename(b)
    decreases |a|
  {
    if a != [] {
      assert a + b != [] && (a + b)[0] == a[0] && (a + b)[1..] == a[1..] + b;
      WireFilenameConcat(a[1..], b);
      var x, y, z := WireChar(a[0]), WireFilename(a[1..]), WireFilename(b);
      assert WireFilename(a + b) == x + (y + z);
      assert WireFilename(a) == x + y;
      assert x + (y + z) == (x + y) + z;
    } else {
      assert a + b == b;
    }
  }

  /** The escaping loses information: two different names, one holding `"`
      where the other holds `%22`, reach the server as the same name. */
  lemma WireFilenameNotInjective(p: string, q: string)
    ensures p + "\"" + q != p + "%22" + q
    ensures WireFilename(p + "\"" + q) == WireFilename(p + "%22" + q)
  {
    assert |p + "\"" + q| != |p + "%22" + q|;
    WireFilenameConcat(p + "\"", q);
    WireFilenameConcat(p, "\"");
    WireFilenameConcat(p + "%22", q);
    WireFilenameConcat(p, "%22");
    assert WireFilename("\"") == "%22";
    WireFilenamePlain("%22");
  }

  /** The `Content-Type` a browser writes for a file part: the file's type, or
      `application/octet-stream` when the browser knows none. */
  function WireType(mimeType: string): (r: string)
    ensures r != ""
    ensures mimeType != "" ==> r == mimeType
  {
    if mimeType == "" then "application/octet-stream" else mimeType
  }

  /** One file as the upload middleware hands it to the handler. */
  datatype Upload = Upload(originalname: string, mimetype: string, buffer: seq<Byte>)

  /** The answer to `GET /job/:id`: `{state, progress, result}`, `{state: "not_found"}`
      or `{state: "failed", error}`. */
  datatype JobStatus =
    | Found(state: string, progress: int, result: Option<JobResult>)
    | NotFound
    | Broken(error: string)
  {
    function StateField(): string {
      match this
      case Found(s, _, _) => s
      case NotFound => "not_found"
      case Broken(_) => "failed"
    }
  }
}
