/** The React client: it submits the selected files to the API, polls the job
    until a final answer, offers the download of a completed job, and merges
    PDFs in the browser. Network answers and the PDF loader are parameters;
    rendering is not modelled. */
module WebApp {
  import opened Text
  import opened Protocol
  import Api
  import Worker

  /** Polling stops at `completed`, `failed` and `not_found`, and goes on otherwise. */
  predicate ShouldStopPolling(state: string) {
    state == "completed" || state == "failed" || state == "not_found"
  }

  /** Against the API, polling stops exactly when the answer is not a 200, or when
      the queue reports the job `completed` or `failed` (the queue's own states
      never include `not_found`). */
  lemma PollingStopsOnFinalAnswers(queue: map<string, Api.QueueEntry>, id: string, lookupFails: bool, stateFault: Option<string>)
    requires id in queue ==> queue[id].state != "not_found"
    ensures var r := Api.PollJob(queue, id, lookupFails, stateFault);
      var stops := ShouldStopPolling(r.body.status.StateField());
      r.body.Status? && (stops <==> (r.code != 200 || queue[id].state == "completed" || queue[id].state == "failed"))
  {
    if !lookupFails && id in queue && stateFault.None? {
      assert Api.PollJob(queue, id, lookupFails, stateFault).code == 200;
    }
  }

  // ---------------------------------------------------------------------------
  // Client-side merge

  /** A page, opaque to the client. */
  datatype Page = Page(content: seq<Byte>)

  /** A PDF being assembled in the browser. */
  class PdfDocument {
    var pages: seq<Page>

    constructor Create()
      ensures pages == []
    {
      pages := [];
    }

    method AddPage(p: Page)
      modifies this
      ensures pages == old(pages) + [p]
    {
      pages := pages + [p];
    }
  }

  /** The pages of the given documents, document by document. */
  function Concat(docs: seq<seq<Page>>): seq<Page> {
    if docs == [] then [] else Concat(docs[..|docs| - 1]) + docs[|docs| - 1]
  }

  /** Merging splits along any cut of the document list: merging [A, B, C] gives
      pages(A) ++ pages(B) ++ pages(C). */
  lemma {:induction false} ConcatSplits(a: seq<seq<Page>>, b: seq<seq<Page>>)
    ensures Concat(a + b) == Concat(a) + Concat(b)
    decreases |b|
  {
    if b == [] {
      assert a + b == a;
    } else {
      var n := |b| - 1;
      var ab := a + b;
      assert ab[..|ab| - 1] == a + b[..n] && ab[|ab| - 1] == b[n];
      assert Concat(ab) == Concat(a + b[..n]) + b[n];
      ConcatSplits(a, b[..n]);
      assert Concat(b) == Concat(b[..n]) + b[n];
      assert (Concat(a) + Concat(b[..n])) + b[n] == Concat(a) + (Concat(b[..n]) + b[n]);
    }
  }

  datatype MergeOutcome = Skipped | LoadFailed | Downloaded(name: string, mimeType: string, pages: seq<Page>)

  predicate AllLoad(files: seq<File>, load: seq<Byte> -> Option<seq<Page>>) {
    forall i :: 0 <= i < |files| ==> load(files[i].bytes).Some?
  }

  function LoadedPages(files: seq<File>, load: seq<Byte> -> Option<seq<Page>>): seq<seq<Page>>
    requires AllLoad(files, load)
  {
    seq(|files|, i requires 0 <= i < |files| && AllLoad(files, load) => load(files[i].bytes).value)
  }

  /** Whether a status answer shows the Download button: `status?.state === "completed"`. */
  function DownloadShown(status: Option<JobStatus>): (shown: bool)
    ensures shown <==> status.Some? && status.value.StateField() == "completed"
    ensures shown ==> status.value.Found?
  {
    status.Some? && status.value.Found? && status.value.state == "completed"
  }

  /** The choice of a completed job's download: the key of its result, when there is one. */
  function ResultKey(status: Option<JobStatus>): (r: Option<string>)
    ensures r.Some? ==>
      r.value != "" && status.Some? && status.value.Found? && status.value.result == Some(JobResult(r.value))
    ensures status.Some? && status.value.Found? && status.value.result.Some?
              && status.value.result.value.downloadKey != "" ==>
      r == Some(status.value.result.value.downloadKey)
  {
    if status.Some? && status.value.Found? && status.value.result.Some?
       && status.value.result.value.downloadKey != ""
    then Some(status.value.result.value.downloadKey)
    else None
  }

  // ---------------------------------------------------------------------------
  // Download paths

  /** The request path `downloadResult` fetches as the source writes it: the key
      pasted after `/download/` as it is. */
  function DownloadPathAsWritten(key: string): string {
    "/download/" + key
  }

  /** The ASCII characters `encodeURIComponent` leaves as they are. */
  predicate IsUnreserved(c: char) {
    'A' <= c <= 'Z' || 'a' <= c <= 'z' || '0' <= c <= '9' || c in "-_.!~*'()"
  }

  /** No character that ends or splits a URL path. */
  predicate PathSafe(s: string) {
    forall i :: 0 <= i < |s| ==> s[i] != '/' && s[i] != '\\' && s[i] != '?' && s[i] != '#'
  }

  /** How the corrected client writes one character of a key: as
      `encodeURIComponent` does for ASCII, `%` and two upper-case digits unless
      the character is unreserved. A non-ASCII character is left to the browser,
      whose UTF-8 escapes the server's decoding undoes. */
  function EncodeChar(c: char): (r: string)
    ensures PathSafe(r)
  {
    if IsUnreserved(c) || c as int >= 0x80 then [c]
    else ['%', UpperHexDigit(c as int / 16), UpperHexDigit(c as int % 16)]
  }

  /** The key as one path segment. */
  function EncodeKey(key: string): (r: string)
    ensures PathSafe(r)
    ensures |r| >= |key|
  {
    if key == [] then [] else EncodeChar(key[0]) + EncodeKey(key[1..])
  }

  lemma DecodeEncodedChar(c: char, rest: string, t: string)
    requires Api.PercentDecode(rest) == Some(t)
    ensures Api.PercentDecode(EncodeChar(c) + rest) == Some([c] + t)
  {
    var e := EncodeChar(c);
    if IsUnreserved(c) || c as int >= 0x80 {
      assert (e + rest)[1..] == rest;
    } else {
      var hi, lo := c as int / 16, c as int % 16;
      assert (e + rest)[3..] == rest && (e + rest)[1] == UpperHexDigit(hi) && (e + rest)[2] == UpperHexDigit(lo);
      assert 16 * hi + lo == c as int < 0x80;
    }
  }

  /** The route's decoding gives back exactly the encoded key. */
  lemma {:induction false} EncodeKeyRoundTrip(key: string)
    ensures Api.PercentDecode(EncodeKey(key)) == Some(key)
  {
    if key != [] {
      EncodeKeyRoundTrip(key[1..]);
      DecodeEncodedChar(key[0], EncodeKey(key[1..]), key[1..]);
      assert EncodeKey(key) == EncodeChar(key[0]) + EncodeKey(key[1..]);
      assert [key[0]] + key[1..] == key;
    }
  }

  /** The path the client should fetch: the key encoded as one path segment. */
  function DownloadPath(key: string): string {
    "/download/" + EncodeKey(key)
  }

  // ---------------------------------------------------------------------------
  // The path a browser requests (the path state of the URL parser, section 4.4
  // of the WHATWG URL Standard, for an http or https URL)

  /** The written path up to its first `?` or `#`: the query and the fragment
      are not part of the path. */
  function BeforeQuery(s: string): (r: string)
    ensures |r| <= |s| && r == s[..|r|]
    ensures '?' !in s && '#' !in s ==> r == s
  {
    if s == [] || s[0] == '?' || s[0] == '#' then ""
    else
      assert forall c :: c in s[1..] ==> c in s;
      [s[0]] + BeforeQuery(s[1..])
  }

  /** The segments of a path, split at `/` and at `\`, which the parser reads as `/`. */
  function Segments(s: string): (r: seq<string>)
    ensures |r| >= 1
  {
    if s == [] then [""]
    else
      var rest := Segments(s[1..]);
      if Worker.IsSeparator(s[0]) then [""] + rest else [[s[0]] + rest[0]] + rest[1..]
  }

  predicate IsSingleDot(s: string) {
    s == "." || s == "%2e" || s == "%2E"
  }

  /** Two single dots in a row: `..`, `.%2e`, `%2E%2e` and so on. */
  predicate IsDoubleDot(s: string) {
    (|s| >= 1 && s[..1] == "." && IsSingleDot(s[1..]))
      || (|s| >= 3 && IsSingleDot(s[..3]) && IsSingleDot(s[3..]))
  }

  /** The segments kept after `kept`, one segment at a time: `..` drops the last
      segment kept, `.` is dropped, and either one, when it is the last segment,
      leaves an empty last segment (the path ends in `/`). */
  function Resolve(segments: seq<string>, kept: seq<string>): seq<string>
    decreases |segments|
  {
    if segments == [] then kept
    else
      var s := segments[0];
      var tail := if |segments| > 1 then [] else [""];
      if IsDoubleDot(s) then Resolve(segments[1..], (if kept == [] then [] else kept[..|kept| - 1]) + tail)
      else if IsSingleDot(s) then Resolve(segments[1..], kept + tail)
      else Resolve(segments[1..], kept + [s])
  }

  /** The path the browser requests for a URL whose path is written as `written`. */
  function RequestPath(written: string): string
    requires StartsWith(written, "/")
  {
    var path := BeforeQuery(written);
    assert path != [] by {
      assert written[0] == '/';
    }
    "/" + JoinWith(Resolve(Segments(path[1..]), []), "/")
  }

  lemma {:induction false} SegmentsOfSegment(s: string)
    requires PathSafe(s)
    ensures Segments(s) == [s]
    decreases |s|
  {
    if s != [] {
      assert PathSafe(s[1..]) by {
        assert forall i :: 0 <= i < |s[1..]| ==> s[1..][i] == s[i + 1];
      }
      SegmentsOfSegment(s[1..]);
      assert [s[0]] + s[1..] == s;
    }
  }

  lemma {:induction false} SegmentsAfterSegment(a: string, b: string)
    requires PathSafe(a)
    ensures Segments(a + "/" + b) == [a] + Segments(b)
    decreases |a|
  {
    var s := a + "/" + b;
    if a == [] {
      assert s[1..] == b;
    } else {
      assert PathSafe(a[1..]) by {
        assert forall i :: 0 <= i < |a[1..]| ==> a[1..][i] == a[i + 1];
      }
      assert s[0] == a[0] && s[1..] == a[1..] + "/" + b;
      SegmentsAfterSegment(a[1..], b);
      assert [a[0]] + a[1..] == a;
    }
  }

  /** Segments other than dot segments are all kept. */
  lemma {:induction false} ResolveKeepsPlainSegments(segments: seq<string>, kept: seq<string>)
    requires forall i :: 0 <= i < |segments| ==> !IsSingleDot(segments[i]) && !IsDoubleDot(segments[i])
    ensures Resolve(segments, kept) == kept + segments
    decreases |segments|
  {
    if segments != [] {
      ResolveKeepsPlainSegments(segments[1..], kept + [segments[0]]);
      assert kept + [segments[0]] + segments[1..] == kept + segments;
    }
  }

  lemma DecodeDot(d: string, rest: string, t: string)
    requires IsSingleDot(d) && Api.PercentDecode(rest) == Some(t)
    ensures Api.PercentDecode(d + rest) == Some("." + t)
  {
    var s := d + rest;
    if d == "." {
      assert s[0] == '.' && s[1..] == rest;
    } else {
      assert s[0] == '%' && s[1] == '2' && s[2] == d[2] && s[3..] == rest;
      assert HexDigitValue(s[1]) == 2 && HexDigitValue(s[2]) == 14;
      assert (46 as char) == '.';
    }
  }

  /** A dot segment decodes to `.` or `..`. */
  lemma DotSegmentsDecode(s: string)
    ensures IsSingleDot(s) ==> Api.PercentDecode(s) == Some(".")
    ensures IsDoubleDot(s) ==> Api.PercentDecode(s) == Some("..")
  {
    assert Api.PercentDecode("") == Some("");
    assert "." + "" == "." && "." + "." == "..";
    if IsSingleDot(s) {
      DecodeDot(s, "", "");
      assert s + "" == s;
    }
    if IsDoubleDot(s) {
      var d1 := if |s| >= 1 && s[..1] == "." && IsSingleDot(s[1..]) then "." else s[..3];
      var d2 := s[|d1|..];
      DecodeDot(d2, "", "");
      assert d2 + "" == d2;
      DecodeDot(d1, d2, ".");
      assert d1 + d2 == s;
    }
  }

  /** A key other than `.` and `..` is encoded as a segment the parser keeps. */
  lemma EncodedKeyIsNoDotSegment(key: string)
    requires key != "." && key != ".."
    ensures !IsSingleDot(EncodeKey(key)) && !IsDoubleDot(EncodeKey(key))
  {
    EncodeKeyRoundTrip(key);
    DotSegmentsDecode(EncodeKey(key));
  }

  predicate NoQuery(s: string) {
    '?' !in s && '#' !in s
  }

  lemma PathSafeConcat(a: string, b: string)
    requires PathSafe(a) && PathSafe(b)
    ensures PathSafe(a + b)
  {
    assert forall i :: 0 <= i < |a + b| ==> (a + b)[i] == if i < |a| then a[i] else b[i - |a|];
  }

  lemma NoQueryAfterSegment(a: string, b: string)
    requires PathSafe(a) && NoQuery(b)
    ensures NoQuery(a + "/" + b)
  {
    assert '?' !in a && '#' !in a;
  }

  /** A segment starting with neither `.` nor `%` is no dot segment. */
  lemma NotDotSegment(s: string)
    requires s == [] || (s[0] != '.' && s[0] != '%')
    ensures !IsSingleDot(s) && !IsDoubleDot(s)
  {
    if |s| >= 3 {
      assert s[..3][0] == s[0];
    }
  }

  /** Joining segments with `/` and splitting the result again gives them back. */
  lemma {:induction false} SegmentsOfJoin(segments: seq<string>)
    requires |segments| >= 1 && forall i :: 0 <= i < |segments| ==> PathSafe(segments[i])
    ensures Segments(JoinWith(segments, "/")) == segments
    ensures NoQuery(JoinWith(segments, "/"))
    decreases |segments|
  {
    if |segments| == 1 {
      SegmentsOfSegment(segments[0]);
      assert '?' !in segments[0] && '#' !in segments[0];
    } else {
      var rest := segments[1..];
      assert forall i :: 0 <= i < |rest| ==> rest[i] == segments[i + 1];
      SegmentsOfJoin(rest);
      SegmentsAfterSegment(segments[0], JoinWith(rest, "/"));
      NoQueryAfterSegment(segments[0], JoinWith(rest, "/"));
      assert [segments[0]] + rest == segments;
    }
  }

  /** A path made of plain segments (no `?`, `#`, `\` and no dot segment) is
      requested as it is written. */
  lemma RequestPathOfPlainSegments(segments: seq<string>)
    requires |segments| >= 1
    requires forall i :: 0 <= i < |segments| ==> PathSafe(segments[i])
    requires forall i :: 0 <= i < |segments| ==> !IsSingleDot(segments[i]) && !IsDoubleDot(segments[i])
    ensures StartsWith("/" + JoinWith(segments, "/"), "/")
    ensures RequestPath("/" + JoinWith(segments, "/")) == "/" + JoinWith(segments, "/")
  {
    var joined := JoinWith(segments, "/");
    var written := "/" + joined;
    StartsWithPrepended("/", joined);
    SegmentsOfJoin(segments);
    assert written[1..] == joined;
    RequestPathUnfold(written);
    ResolveKeepsPlainSegments(segments, []);
    assert [] + segments == segments;
    assert Resolve(Segments(written[1..]), []) == segments;
  }

  lemma RequestPathUnfold(written: string)
    requires StartsWith(written, "/") && NoQuery(written)
    ensures RequestPath(written) == "/" + JoinWith(Resolve(Segments(written[1..]), []), "/")
  {
  }

  /** The browser resolves `/<dir>/<leaf>`, for two segments, from the pair alone. */
  lemma RequestPathOfPair(dir: string, leaf: string)
    requires PathSafe(dir) && PathSafe(leaf)
    ensures StartsWith("/" + (dir + "/" + leaf), "/")
    ensures RequestPath("/" + (dir + "/" + leaf)) == "/" + JoinWith(Resolve([dir, leaf], []), "/")
  {
    var written := "/" + (dir + "/" + leaf);
    StartsWithPrepended("/", dir + "/" + leaf);
    assert NoQuery(leaf);
    NoQueryAfterSegment(dir, leaf);
    assert NoQuery(written);
    assert written[1..] == dir + "/" + leaf;
    RequestPathUnfold(written);
    SegmentsAfterSegment(dir, leaf);
    SegmentsOfSegment(leaf);
  }

  /** The route hands the handler a non-empty segment, decoded. */
  lemma RouteOfSegment(e: string)
    requires e != [] && PathSafe(e)
    ensures Api.DownloadRouteKey("/download/" + e) == Api.PercentDecode(e)
  {
    StartsWithPrepended("/download/", e);
    assert ("/download/" + e)[10..] == e;
    assert e[|e| - 1] != '/' && '/' !in e;
  }

  lemma JoinPair(a: string, b: string)
    ensures JoinWith([a, b], "/") == a + "/" + b
  {
    assert [a, b][1..] == [b];
  }

  /** The browser resolves a last segment `.` to an empty one, and `..` drops
      the directory before it. */
  lemma ResolveAfterDirectory(dir: string, leaf: string)
    requires !IsSingleDot(dir) && !IsDoubleDot(dir)
    ensures IsSingleDot(leaf) && !IsDoubleDot(leaf) ==> Resolve([dir, leaf], []) == [dir, ""]
    ensures IsDoubleDot(leaf) ==> Resolve([dir, leaf], []) == [""]
  {
    assert [dir, leaf][1..] == [leaf] && [dir, leaf][0] == dir;
    assert [] + [dir] == [dir];
    assert Resolve([dir, leaf], []) == Resolve([leaf], [dir]);
    assert [leaf][1..] == [];
    assert [dir][..0] == [];
    if IsDoubleDot(leaf) {
      assert Resolve([leaf], [dir]) == Resolve([], [] + [""]);
    } else if IsSingleDot(leaf) {
      assert Resolve([leaf], [dir]) == Resolve([], [dir] + [""]);
    }
  }

  lemma EncodeDots()
    ensures EncodeKey("") == "" && EncodeKey(".") == "." && EncodeKey("..") == ".."
  {
    assert IsUnreserved('.');
    assert EncodeKey(".") == EncodeChar('.') + EncodeKey("");
    assert ".."[1..] == ".";
    assert EncodeKey("..") == EncodeChar('.') + EncodeKey(".");
  }

  /** `/download/<e>` for a plain segment `e` is requested as it is written. */
  lemma DownloadPathOfPlainSegment(e: string)
    requires PathSafe(e) && !IsSingleDot(e) && !IsDoubleDot(e)
    ensures StartsWith("/download/" + e, "/")
    ensures RequestPath("/download/" + e) == "/download/" + e
  {
    assert PathSafe("download");
    NotDotSegment("download");
    JoinPair("download", e);
    assert "/download/" + e == "/" + JoinWith(["download", e], "/");
    RequestPathOfPlainSegments(["download", e]);
  }

  /** A key other than the empty one, `.` and `..` reaches the handler intact. */
  lemma PlainKeyReachesRoute(key: string)
    requires key != "" && key != "." && key != ".."
    ensures StartsWith(DownloadPath(key), "/")
    ensures Api.DownloadRouteKey(RequestPath(DownloadPath(key))) == Some(key)
  {
    var e := EncodeKey(key);
    EncodedKeyIsNoDotSegment(key);
    DownloadPathOfPlainSegment(e);
    RouteOfSegment(e);
    EncodeKeyRoundTrip(key);
  }

  /** `/download/` is requested as it is written. */
  lemma DownloadPathOfEmptyLeaf(e: string)
    requires e == ""
    ensures StartsWith("/download/" + e, "/")
    ensures RequestPath("/download/" + e) == "/download/"
  {
    assert PathSafe("download") && PathSafe(e);
    assert "/download/" + e == "/" + ("download" + "/" + e);
    RequestPathOfPair("download", e);
    NotDotSegment("download");
    NotDotSegment(e);
    ResolveKeepsPlainSegments(["download", e], []);
    JoinPair("download", e);
  }

  /** `/download/.` is requested as `/download/`. */
  lemma DownloadPathOfSingleDot(e: string)
    requires e == "."
    ensures StartsWith("/download/" + e, "/")
    ensures RequestPath("/download/" + e) == "/download/"
  {
    assert PathSafe("download") && PathSafe(e);
    assert "/download/" + e == "/" + ("download" + "/" + e);
    RequestPathOfPair("download", e);
    NotDotSegment("download");
    ResolveAfterDirectory("download", e);
    JoinPair("download", "");
  }

  /** `/download/..` is requested as `/`. */
  lemma DownloadPathOfDoubleDot(e: string)
    requires e == ".."
    ensures StartsWith("/download/" + e, "/")
    ensures RequestPath("/download/" + e) == "/"
  {
    assert PathSafe("download") && PathSafe(e);
    assert "/download/" + e == "/" + ("download" + "/" + e);
    RequestPathOfPair("download", e);
    NotDotSegment("download");
    assert IsDoubleDot(e) by {
      assert e[..1] == "." && e[1..] == ".";
    }
    ResolveAfterDirectory("download", e);
  }

  /** The route binds no key for `/download/` and for `/`. */
  lemma RouteMissesDirectory()
    ensures Api.DownloadRouteKey("/download/") == None
    ensures Api.DownloadRouteKey("/") == None
  {
    assert "/download/"[10..] == "";
    assert !StartsWith("/", "/download/");
  }

  /** The empty key, `.` and `..` resolve to `/download/` or `/`, which the
      route does not match. */
  lemma DotKeysMissRoute(key: string)
    requires key == "" || key == "." || key == ".."
    ensures StartsWith(DownloadPath(key), "/")
    ensures Api.DownloadRouteKey(RequestPath(DownloadPath(key))) == None
  {
    EncodeDots();
    RouteMissesDirectory();
    var e := EncodeKey(key);
    assert e == key;
    if key == ".." {
      DownloadPathOfDoubleDot(e);
    } else if key == "." {
      DownloadPathOfSingleDot(e);
    } else {
      DownloadPathOfEmptyLeaf(e);
    }
  }

  /** With the key encoded, the route hands the handler exactly the key the
      client asked for, for every key but the three no path segment can carry:
      the empty key, `.` and `..`. */
  lemma DownloadReachesRoute(key: string)
    ensures StartsWith(DownloadPath(key), "/")
    ensures Api.DownloadRouteKey(RequestPath(DownloadPath(key))) == Some(key)
        <==> key != "" && key != "." && key != ".."
  {
    if key != "" && key != "." && key != ".." {
      PlainKeyReachesRoute(key);
    } else {
      DotKeysMissRoute(key);
    }
  }

  /** What `crypto.randomUUID` yields: hexadecimal digits and `-`. */
  predicate UuidShaped(id: string) {
    forall i :: 0 <= i < |id| ==> IsHexDigit(id[i]) || id[i] == '-'
  }

  /** As written, the client's download request for any key the worker produces
      never reaches the `/download/:key` handler: the key's `/` splits it into
      several path segments. */
  lemma AsWrittenDownloadMissesRoute(id: string, now: nat, op: string, outPath: string)
    requires UuidShaped(id) && Worker.ParseOp(op).Some?
    ensures StartsWith(DownloadPathAsWritten(Worker.OutputKey(id, now, op, outPath)), "/")
    ensures Api.DownloadRouteKey(RequestPath(DownloadPathAsWritten(Worker.OutputKey(id, now, op, outPath)))) == None
  {
    var key := Worker.OutputKey(id, now, op, outPath);
    var written := DownloadPathAsWritten(key);
    RequestPathOfOutputKey(id, now, op, outPath);
    Worker.OutputKeyShape(id, now, op, outPath);
    assert written[10..] == key;
    assert key[3] == '/';
    var ext := Worker.OutputExtension(outPath);
    assert key[|key| - 1] == ext[|ext| - 1] != '/';
  }

  /** A path of four plain segments is requested as it is written. */
  lemma RequestPathOfFourSegments(a: string, b: string, c: string, d: string)
    requires PathSafe(a) && PathSafe(b) && PathSafe(c) && PathSafe(d)
    requires !IsSingleDot(a) && !IsDoubleDot(a) && !IsSingleDot(b) && !IsDoubleDot(b)
    requires !IsSingleDot(c) && !IsDoubleDot(c) && !IsSingleDot(d) && !IsDoubleDot(d)
    ensures StartsWith("/" + JoinWith([a, b, c, d], "/"), "/")
    ensures RequestPath("/" + JoinWith([a, b, c, d], "/")) == "/" + JoinWith([a, b, c, d], "/")
  {
    var segments := [a, b, c, d];
    assert forall i :: 0 <= i < 4 ==> segments[i] in {a, b, c, d};
    RequestPathOfPlainSegments(segments);
  }

  /** A UUID is one plain path segment. */
  lemma UuidSegment(id: string)
    requires UuidShaped(id)
    ensures PathSafe(id) && !IsSingleDot(id) && !IsDoubleDot(id)
  {
    NotDotSegment(id);
  }

  /** `/download/out/<id>/<tail>` with plain segments is requested as it is written. */
  lemma RequestPathOfKeyPath(id: string, tail: string)
    requires PathSafe(id) && !IsSingleDot(id) && !IsDoubleDot(id)
    requires PathSafe(tail) && !IsSingleDot(tail) && !IsDoubleDot(tail)
    ensures StartsWith(DownloadPathAsWritten(("out/" + id + "/") + tail), "/")
    ensures RequestPath(DownloadPathAsWritten(("out/" + id + "/") + tail)) == DownloadPathAsWritten(("out/" + id + "/") + tail)
  {
    OutputKeyAsSegments(id, tail);
    assert PathSafe("download") && PathSafe("out");
    NotDotSegment("download");
    NotDotSegment("out");
    RequestPathOfFourSegments("download", "out", id, tail);
  }

  /** The browser requests a worker key's path as it is written. */
  lemma RequestPathOfOutputKey(id: string, now: nat, op: string, outPath: string)
    requires UuidShaped(id) && Worker.ParseOp(op).Some?
    ensures StartsWith(DownloadPathAsWritten(Worker.OutputKey(id, now, op, outPath)), "/")
    ensures RequestPath(DownloadPathAsWritten(Worker.OutputKey(id, now, op, outPath)))
         == DownloadPathAsWritten(Worker.OutputKey(id, now, op, outPath))
  {
    var ext := Worker.OutputExtension(outPath);
    var tail := (NatToString(now) + "-" + op) + ext;
    assert Worker.OutputKey(id, now, op, outPath) == ("out/" + id + "/") + tail;
    OutputTailIsSegment(now, op, ext);
    UuidSegment(id);
    RequestPathOfKeyPath(id, tail);
  }

  lemma OutputKeyAsSegments(id: string, tail: string)
    ensures "/" + JoinWith(["download", "out", id, tail], "/") == DownloadPathAsWritten(("out/" + id + "/") + tail)
  {
    var segments := ["download", "out", id, tail];
    assert segments[1..] == ["out", id, tail] && segments[1..][1..] == [id, tail];
    JoinPair(id, tail);
  }

  lemma OpNameIsPathSafe(op: Worker.Op)
    ensures PathSafe(Worker.OpName(op))
  {
  }

  /** `<timestamp>-<op><ext>` is one path segment and no dot segment. */
  lemma OutputTailIsSegment(now: nat, op: string, ext: string)
    requires Worker.ParseOp(op).Some? && (ext == ".pdf" || ext == ".zip" || ext == ".docx")
    ensures PathSafe((NatToString(now) + "-" + op) + ext)
    ensures !IsSingleDot((NatToString(now) + "-" + op) + ext) && !IsDoubleDot((NatToString(now) + "-" + op) + ext)
  {
    var digits := NatToString(now);
    assert PathSafe(digits) by {
      assert forall i :: 0 <= i < |digits| ==> IsDigit(digits[i]);
    }
    OpNameIsPathSafe(Worker.ParseOp(op).value);
    assert PathSafe("-") && PathSafe(ext);
    PathSafeConcat(digits, "-");
    PathSafeConcat(digits + "-", op);
    PathSafeConcat(digits + "-" + op, ext);
    var tail := (digits + "-" + op) + ext;
    assert tail[0] == digits[0];
    NotDotSegment(tail);
  }

  // ---------------------------------------------------------------------------
  // The component

  /** The timers `timers` without the one at index `t`: the others keep running
      in their order. */
  function StopTimer(timers: seq<string>, t: nat): (r: seq<string>)
    requires t < |timers|
    ensures |r| == |timers| - 1
    ensures forall i :: 0 <= i < t ==> r[i] == timers[i]
    ensures forall i :: t < i < |timers| ==> r[i - 1] == timers[i]
  {
    timers[..t] + timers[t + 1..]
  }

  /** Stopping one timer leaves exactly one timer fewer for its id and as many
      as before for every other id. */
  lemma {:induction false} StopTimerCounts(timers: seq<string>, t: nat, id: string)
    requires t < |timers|
    ensures multiset(StopTimer(timers, t))[id] ==
      multiset(timers)[id] - (if timers[t] == id then 1 else 0)
  {
    assert timers == timers[..t] + [timers[t]] + timers[t + 1..];
    calc {
      multiset(timers);
      multiset(timers[..t] + [timers[t]] + timers[t + 1..]);
      multiset(timers[..t]) + multiset([timers[t]]) + multiset(timers[t + 1..]);
      multiset(StopTimer(timers, t)) + multiset([timers[t]]);
    }
  }

  /** The state of the page: the selected files, the submitted job, the last
      status answer and the poll timers still running, one entry per timer
      holding the job id it polls. Every submission starts a timer of its own,
      and a timer stops only on its own final answer. */
  class App {
    var files: seq<File>
    var job: Option<string>
    var status: Option<JobStatus>
    var polling: seq<string>

    constructor ()
      ensures files == [] && job.None? && status.None? && polling == []
    {
      files := [];
      job := None;
      status := None;
      polling := [];
    }

    /** The file input's change: the selection replaces the list of files. */
    method SelectFiles(chosen: seq<File>)
      modifies this
      ensures files == chosen && job == old(job) && status == old(status) && polling == old(polling)
    {
      files := chosen;
    }

    /** `startJob(op)`: the request path and every selected file appended under the
        field `files`, with its own name, in selection order. */
    method StartJob(op: string) returns (path: string, form: seq<FormPart>)
      ensures path == "/job/" + op
      ensures |form| == |files|
      ensures forall i :: 0 <= i < |files| ==> form[i] == FormPart("files", files[i], files[i].name)
    {
      var fd := new FormData();
      for i := 0 to |files|
        invariant fresh(fd)
        invariant |fd.parts| == i
        invariant forall k :: 0 <= k < i ==> fd.parts[k] == FormPart("files", files[k], files[k].name)
      {
        fd.Append("files", files[i], files[i].name);
      }
      path := "/job/" + op;
      form := fd.parts;
    }

    /** What the submission answered: `setJob({id: j.id}); poll(j.id)`. An answer
        without an id polls the id `undefined`. The new timer runs beside the
        timers of earlier submissions. */
    method OnSubmitted(body: Api.Body)
      modifies this
      ensures job == Some(if body.Created? then body.id else "undefined")
      ensures polling == old(polling) + [job.value]
      ensures files == old(files) && status == old(status)
    {
      job := Some(if body.Created? then body.id else "undefined");
      polling := polling + [job.value];
    }

    /** One tick of the running timer at index `t`, with the API's answer for the
        job that timer polls. The answer becomes the status whichever job it is
        about; only that timer stops, and only on a final answer. */
    method OnPollAnswer(t: nat, answer: JobStatus)
      requires t < |polling|
      modifies this
      ensures status == Some(answer)
      ensures polling == if ShouldStopPolling(answer.StateField()) then StopTimer(old(polling), t) else old(polling)
      ensures files == old(files) && job == old(job)
    {
      status := Some(answer);
      if ShouldStopPolling(answer.StateField()) {
        polling := StopTimer(polling, t);
      }
    }

    /** The Download button is shown only for a `completed` job. */
    function ShowsDownload(): (shown: bool)
      reads this
      ensures shown <==> status.Some? && status.value.StateField() == "completed"
    {
      DownloadShown(status)
    }

    /** `downloadResult`: nothing without a download key, otherwise a request
        for it. As written the key is pasted into the path as it is; corrected,
        it is encoded as one path segment, and the route hands the handler that
        very key unless the key is `.` or `..`. */
    function DownloadRequest(asWritten: bool): (r: Option<string>)
      reads this
      ensures r.None? <==> ResultKey(status).None?
      ensures r.Some? ==> StartsWith(r.value, "/")
      ensures r.Some? && asWritten ==> r.value == DownloadPathAsWritten(ResultKey(status).value)
      ensures r.Some? && !asWritten ==> var key := ResultKey(status).value;
        (Api.DownloadRouteKey(RequestPath(r.value)) == Some(key) <==> key != "." && key != "..")
    {
      match ResultKey(status)
      case None => None
      case Some(key) =>
        if asWritten then
          StartsWithPrepended("/", "download/" + key);
          assert DownloadPathAsWritten(key) == "/" + ("download/" + key);
          Some(DownloadPathAsWritten(key))
        else
          DownloadReachesRoute(key);
          Some(DownloadPath(key))
    }

    /** `clientMerge`: with fewer than two files nothing happens; otherwise every
        page of every file is appended, file by file in selection order and page by
        page in index order, and the result is downloaded as `merged.pdf`. A file
        that does not load aborts the merge. */
    method ClientMerge(load: seq<Byte> -> Option<seq<Page>>) returns (r: MergeOutcome)
      ensures r == Skipped <==> |files| < 2
      ensures r == LoadFailed <==> |files| >= 2 && !AllLoad(files, load)
      ensures r.Downloaded? ==>
        AllLoad(files, load) && r == Downloaded("merged.pdf", "application/pdf", Concat(LoadedPages(files, load)))
    {
      if |files| < 2 {
        return Skipped;
      }
      var fs := files;
      var merged := new PdfDocument.Create();
      for i := 0 to |fs|
        invariant fresh(merged)
        invariant AllLoad(fs[..i], load)
        invariant merged.pages == Concat(LoadedPages(fs[..i], load))
      {
        var doc := load(fs[i].bytes);
        if doc.None? {
          assert !AllLoad(fs, load);
          return LoadFailed;
        }
        var pages := doc.value;
        for j := 0 to |pages|
          invariant merged.pages == Concat(LoadedPages(fs[..i], load)) + pages[..j]
        {
          merged.AddPage(pages[j]);
          assert pages[..j + 1] == pages[..j] + [pages[j]];
        }
        assert fs[..i + 1][..i] == fs[..i];
        assert LoadedPages(fs[..i + 1], load)[..i] == LoadedPages(fs[..i], load);
        assert pages[..|pages|] == pages;
      }
      assert fs[..|fs|] == fs;
      r := Downloaded("merged.pdf", "application/pdf", merged.pages);
    }
  }

  /** A browser `FormData`. */
  class FormData {
    var parts: seq<FormPart>

    constructor ()
      ensures parts == []
    {
      parts := [];
    }

    method Append(field: string, file: File, filename: string)
      modifies this
      ensures parts == old(parts) + [FormPart(field, file, filename)]
    {
      parts := parts + [FormPart(field, file, filename)];
    }
  }

  /** The form `startJob` builds reaches the submission handler as exactly the
      selected files, in selection order, each with its bytes and with its name
      and type as the browser writes them into the body. */
  lemma StartJobFormIsAccepted(files: seq<File>, form: seq<FormPart>)
    requires |form| == |files|
    requires forall i :: 0 <= i < |files| ==> form[i] == FormPart("files", files[i], files[i].name)
    ensures Api.UploadsOf(form).Some?
    ensures |Api.UploadsOf(form).value| == |files|
    ensures forall i :: 0 <= i < |files| ==>
      Api.UploadsOf(form).value[i] == Upload(WireFilename(files[i].name), WireType(files[i].mimeType), files[i].bytes)
  {
  }

  /** A file whose name holds no `"`, CR or LF and whose type is known reaches
      the handler unchanged. */
  lemma PlainFileIsUploadedAsIs(f: File)
    requires '"' !in f.name && '\r' !in f.name && '\n' !in f.name
    requires f.mimeType != ""
    ensures Api.UploadsOf([FormPart("files", f, f.name)]) == Some([Upload(f.name, f.mimeType, f.bytes)])
  {
    StartJobFormIsAccepted([f], [FormPart("files", f, f.name)]);
    var u := Api.UploadsOf([FormPart("files", f, f.name)]);
    assert u.value[0] == Upload(WireFilename(f.name), WireType(f.mimeType), f.bytes);
    WireFilenamePlain(f.name);
    assert WireType(f.mimeType) == f.mimeType;
    assert u.value == [u.value[0]];
  }

  /** A rejected submission polls `/job/undefined`; unless a job has that id, its
      first answer is `not_found` and polling stops. */
  lemma RejectedSubmissionStopsPolling(queue: map<string, Api.QueueEntry>, lookupFails: bool, stateFault: Option<string>)
    requires "undefined" !in queue
    ensures var r := Api.PollJob(queue, "undefined", lookupFails, stateFault);
      r.code == 404 && ShouldStopPolling(r.body.status.StateField())
  {
    Api.PollUnknownJob(queue, "undefined", lookupFails, stateFault);
  }

  // ---------------------------------------------------------------------------
  // A job's life as the client sees it

  /** As written, a job is enqueued with `removeOnComplete`: once the worker
      completes it the queue no longer has it, the next poll answers `not_found`,
      polling stops and the Download button never shows. */
  lemma CompletedJobForgottenAsWritten(queue: map<string, Api.QueueEntry>, op: string, data: JobData, result: JobResult)
    ensures var q := Api.Complete(queue[data.id := Api.NewEntry(op, data, Api.OptionsFor(data.id, true))], data.id, result);
      var answer := Api.PollJob(q, data.id, false, None);
      answer == Api.Response(404, Api.Status(NotFound))
        && ShouldStopPolling(answer.body.status.StateField())
        && !DownloadShown(Some(answer.body.status))
  {
    var q := Api.Complete(queue[data.id := Api.NewEntry(op, data, Api.OptionsFor(data.id, true))], data.id, result);
    Api.PollUnknownJob(q, data.id, false, None);
  }

  /** With completed jobs kept, the poll after completion answers `completed` with
      the result: polling stops, the Download button shows, and the download is
      requested for the key the worker stored. */
  lemma CompletedJobOffersDownload(queue: map<string, Api.QueueEntry>, op: string, data: JobData, result: JobResult)
    requires result.downloadKey != ""
    ensures var q := Api.Complete(queue[data.id := Api.NewEntry(op, data, Api.OptionsFor(data.id, false))], data.id, result);
      var answer := Api.PollJob(q, data.id, false, None);
      answer.code == 200
        && ShouldStopPolling(answer.body.status.StateField())
        && DownloadShown(Some(answer.body.status))
        && ResultKey(Some(answer.body.status)) == Some(result.downloadKey)
  {
  }

  /** As written, the Download button of a job whose result is a worker key
      requests a path the `/download/:key` route does not match. */
  lemma AsWrittenRequestMissesRoute(app: App, id: string, now: nat, op: string, outPath: string)
    requires app.status.Some? && app.status.value.Found?
    requires app.status.value.result == Some(JobResult(Worker.OutputKey(id, now, op, outPath)))
    requires UuidShaped(id) && Worker.ParseOp(op).Some?
    ensures app.DownloadRequest(true).Some?
    ensures Api.DownloadRouteKey(RequestPath(app.DownloadRequest(true).value)).None?
  {
    Worker.OutputKeyShape(id, now, op, outPath);
    AsWrittenDownloadMissesRoute(id, now, op, outPath);
  }

  /** Two submissions in a row run two timers. The first job's final answer
      stops only its own timer: the second job is still polled, and a later
      answer for it can still show the Download button. */
  method TwoSubmissions(app: App, first: Api.Body, second: Api.Body, finalFirst: JobStatus)
    requires app.polling == []
    requires ShouldStopPolling(finalFirst.StateField())
    modifies app
    ensures app.polling == [if second.Created? then second.id else "undefined"]
    ensures app.job == Some(app.polling[0])
    ensures app.status == Some(finalFirst)
  {
    app.OnSubmitted(first);
    app.OnSubmitted(second);
    assert |app.polling| == 2;
    app.OnPollAnswer(0, finalFirst);
  }

  /** No store or queue call throws. */
  function NoFaults(n: nat): (faults: seq<Option<string>>)
    ensures |faults| == n && Api.NoFault(faults)
  {
    seq(n, _ => None)
  }

  /** A job's life through the server: submitted with `PostJob` (as written or
      corrected), completed by the worker, then polled once. As written the
      poll answers `not_found` and no download is offered; corrected, it answers
      `completed`, polling stops and the worker's key is downloaded. */
  method JobLife(server: Api.ApiServer, op: string, files: seq<Upload>, id: string, uuids: seq<string>,
                 result: JobResult, asWritten: bool)
    returns (answer: Api.Response)
    requires files != [] && |uuids| == |files| && id !in server.queue
    requires result.downloadKey != ""
    modifies server
    ensures answer.body.Status? && ShouldStopPolling(answer.body.status.StateField())
    ensures asWritten ==> answer == Api.Response(404, Api.Status(NotFound)) && !DownloadShown(Some(answer.body.status))
    ensures !asWritten ==>
      answer.code == 200 && DownloadShown(Some(answer.body.status))
        && ResultKey(Some(answer.body.status)) == Some(result.downloadKey)
  {
    ghost var before := server.queue;
    var posted := server.PostJob(op, files, id, uuids, NoFaults(|files|), None, asWritten);
    var data := JobData(id, op, Api.InputsOf(id, uuids, files));
    assert server.queue == before[id := Api.NewEntry(op, data, Api.OptionsFor(id, asWritten))];
    server.Finish(id, result);
    answer := Api.PollJob(server.queue, id, false, None);
    if asWritten {
      CompletedJobForgottenAsWritten(before, op, data, result);
    } else {
      CompletedJobOffersDownload(before, op, data, result);
    }
  }
}
