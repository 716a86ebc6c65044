/** The job callback of the conversion worker: it stages every input of a job
    into scratch files, picks the external commands for the job's operation,
    runs them one after another and uploads the output under a key derived from
    the job id, the clock and the operation. The object store is the host's
    `bucket`, the scratch directory its `scratch` map; random bytes, the clock,
    the exit status of each command, the directory listing and the files the
    tools write are parameters. */
module Worker {
  import opened Text
  import opened Protocol

  /** The operations the worker knows. */
  datatype Op = Merge | Compress | Split | Docx2Pdf | Pdf2Docx | Ocr | Flatten

  function OpName(op: Op): string {
    match op
    case Merge => "merge"
    case Compress => "compress"
    case Split => "split"
    case Docx2Pdf => "docx2pdf"
    case Pdf2Docx => "pdf2docx"
    case Ocr => "ocr"
    case Flatten => "flatten"
  }

  /** The `switch (op)`: a known name selects its operation, any other string none. */
  function ParseOp(s: string): (r: Option<Op>)
    ensures r.Some? ==> OpName(r.value) == s
    ensures r.None? ==> forall op: Op :: OpName(op) != s
  {
    if s == "merge" then Some(Merge)
    else if s == "compress" then Some(Compress)
    else if s == "split" then Some(Split)
    else if s == "docx2pdf" then Some(Docx2Pdf)
    else if s == "pdf2docx" then Some(Pdf2Docx)
    else if s == "ocr" then Some(Ocr)
    else if s == "flatten" then Some(Flatten)
    else None
  }

  lemma ParseOpName(op: Op)
    ensures ParseOp(OpName(op)) == Some(op)
  {
  }

  // ---------------------------------------------------------------------------
  // External commands

  datatype Command = Command(program: string, args: seq<string>)

  /** How a child process ended: with an exit code, or by a signal (code `null`). */
  datatype ExitStatus = Exited(code: int) | Killed

  datatype JobError =
    | FetchFailed(key: string)          // the object store had no such input
    | UnknownOp(op: string)             // the `default:` branch of the switch
    | MissingInput                      // a one-input operation was given no input
    | CommandFailed(command: Command, status: ExitStatus)
    | ReadFailed(path: string)          // the output file was never written
    | UploadFailed(message: string)     // the store refused the output

  function StatusText(status: ExitStatus): string {
    match status
    case Exited(code) => IntToString(code)
    case Killed => "null"
  }

  /** The `Error` message the job fails with, where the worker writes it itself;
      the others come from the object store and file system libraries. */
  function Message(e: JobError): Option<string> {
    match e
    case UnknownOp(op) => Some("Unknown op " + op)
    case CommandFailed(c, status) => Some(c.program + " " + JoinWith(c.args, " ") + " -> " + StatusText(status))
    case UploadFailed(message) => Some(message)
    case _ => None
  }

  /** `run(cmd, args)`: resolves exactly when the process exits with code 0. */
  function Run(c: Command, status: ExitStatus): (r: Option<JobError>)
    ensures r.None? <==> status == Exited(0)
    ensures r.Some? ==> Message(r.value) == Some(c.program + " " + JoinWith(c.args, " ") + " -> " + StatusText(status))
  {
    if status == Exited(0) then None else Some(CommandFailed(c, status))
  }

  /** The commands of one job are awaited in order, so the first one that does
      not exit with 0 ends the job and the ones after it never start. */
  function FirstFailingStep(steps: seq<Command>, exit: Command -> ExitStatus): (r: Option<nat>)
    ensures r.None? <==> forall i :: 0 <= i < |steps| ==> Run(steps[i], exit(steps[i])).None?
    ensures r.Some? ==> r.value < |steps| && Run(steps[r.value], exit(steps[r.value])).Some?
    ensures r.Some? ==> forall i :: 0 <= i < r.value ==> Run(steps[i], exit(steps[i])).None?
  {
    if steps == [] then None
    else if Run(steps[0], exit(steps[0])).Some? then Some(0)
    else
      assert forall i :: 1 <= i < |steps| ==> steps[i] == steps[1..][i - 1];
      match FirstFailingStep(steps[1..], exit)
      case None => None
      case Some(k) => Some(k + 1)
  }

  /** A failing command after commands that all succeed is the first failure. */
  lemma FirstFailingStepAt(steps: seq<Command>, exit: Command -> ExitStatus, i: nat)
    requires i < |steps| && Run(steps[i], exit(steps[i])).Some?
    requires forall j :: 0 <= j < i ==> Run(steps[j], exit(steps[j])).None?
    ensures FirstFailingStep(steps, exit) == Some(i)
  {
    var r := FirstFailingStep(steps, exit);
    assert r.Some?;
    assert !(r.value < i) && !(i < r.value);
  }

  /** The scratch directory after `steps` ran in order, each command `c`
      writing the files `writes(c)` (a failing command may have written part
      of its output). Nothing is ever removed. */
  function Written(scratch: map<string, seq<Byte>>, steps: seq<Command>,
                   writes: Command -> map<string, seq<Byte>>): (r: map<string, seq<Byte>>)
    ensures scratch.Keys <= r.Keys
    decreases |steps|
  {
    if steps == [] then scratch else Written(scratch + writes(steps[0]), steps[1..], writes)
  }

  /** Running one more command adds what it writes on top. */
  lemma {:induction false} WrittenAppend(scratch: map<string, seq<Byte>>, steps: seq<Command>, c: Command,
                                         writes: Command -> map<string, seq<Byte>>)
    ensures Written(scratch, steps + [c], writes) == Written(scratch, steps, writes) + writes(c)
    decreases |steps|
  {
    if steps == [] {
      assert ([] + [c])[1..] == [];
    } else {
      assert (steps + [c])[1..] == steps[1..] + [c];
      WrittenAppend(scratch + writes(steps[0]), steps[1..], c, writes);
    }
  }

  /** A file no command writes keeps its presence and its contents. */
  lemma {:induction false} WrittenKeepsUntouched(scratch: map<string, seq<Byte>>, steps: seq<Command>,
                                                 writes: Command -> map<string, seq<Byte>>, f: string)
    requires forall i :: 0 <= i < |steps| ==> f !in writes(steps[i])
    ensures f in Written(scratch, steps, writes) <==> f in scratch
    ensures f in scratch ==> Written(scratch, steps, writes)[f] == scratch[f]
    decreases |steps|
  {
    if steps != [] {
      assert forall i :: 0 <= i < |steps[1..]| ==> steps[1..][i] == steps[i + 1];
      WrittenKeepsUntouched(scratch + writes(steps[0]), steps[1..], writes, f);
    }
  }

  // ---------------------------------------------------------------------------
  // Scratch names

  /** `rand()`: six random bytes in lower-case hexadecimal. */
  function Rand(randomBytes: seq<Byte>): (r: string)
    requires |randomBytes| == 6
    ensures |r| == 12 && forall i :: 0 <= i < |r| ==> IsLowerHexDigit(r[i])
  {
    Hex(randomBytes)
  }

  /** The scratch file an input is staged to: `tmpdir/<rand>-<basename(name)>`. */
  function StagedPath(tmp: string, randomBytes: seq<Byte>, name: string): string
    requires |randomBytes| == 6
  {
    PathJoin(tmp, Rand(randomBytes) + "-" + Basename(name))
  }

  predicate WellFormedRandoms(rands: seq<seq<Byte>>) {
    forall i :: 0 <= i < |rands| ==> |rands[i]| == 6
  }

  function StagedPaths(tmp: string, rands: seq<seq<Byte>>, inputs: seq<InputRef>): seq<string>
    requires |rands| == |inputs| && WellFormedRandoms(rands)
  {
    seq(|inputs|, i requires 0 <= i < |inputs| => StagedPath(tmp, rands[i], inputs[i].name))
  }

  /** Staging yields one scratch path per input, in input order, each in the
      scratch directory and named by the random prefix and the input's basename. */
  lemma StagedPathsShape(tmp: string, rands: seq<seq<Byte>>, inputs: seq<InputRef>)
    requires |rands| == |inputs| && WellFormedRandoms(rands)
    ensures |StagedPaths(tmp, rands, inputs)| == |inputs|
    ensures forall i :: 0 <= i < |inputs| ==>
      var p := StagedPaths(tmp, rands, inputs)[i];
      StartsWith(p, tmp + "/") && p[|tmp| + 1..] == Hex(rands[i]) + "-" + Basename(inputs[i].name)
        && '/' !in p[|tmp| + 1..]
  {
    forall i | 0 <= i < |inputs|
      ensures var p := StagedPaths(tmp, rands, inputs)[i];
        StartsWith(p, tmp + "/") && p[|tmp| + 1..] == Hex(rands[i]) + "-" + Basename(inputs[i].name)
          && '/' !in p[|tmp| + 1..]
    {
      var leaf := Hex(rands[i]) + "-" + Basename(inputs[i].name);
      var p := tmp + "/" + leaf;
      assert p[..|tmp| + 1] == tmp + "/";
      assert p[|tmp| + 1..] == leaf;
      assert forall k :: 0 <= k < |Hex(rands[i])| ==> Hex(rands[i])[k] != '/';
    }
  }

  predicate DistinctRandoms(rands: seq<seq<Byte>>) {
    forall i, j :: 0 <= i < j < |rands| ==> rands[i] != rands[j]
  }

  /** Two leaves `<h>-<b>` in one directory agree on equally long prefixes `h`. */
  lemma SameLeafPrefix(dir: string, h1: string, b1: string, h2: string, b2: string)
    requires |h1| == |h2|
    requires PathJoin(dir, h1 + "-" + b1) == PathJoin(dir, h2 + "-" + b2)
    ensures h1 == h2
  {
    var p1 := PathJoin(dir, h1 + "-" + b1);
    var p2 := PathJoin(dir, h2 + "-" + b2);
    assert p1[|dir| + 1..|dir| + 1 + |h1|] == h1;
    assert p2[|dir| + 1..|dir| + 1 + |h2|] == h2;
  }

  /** A staged path gives away the random bytes it was named with. */
  lemma StagedPathRandom(tmp: string, r1: seq<Byte>, n1: string, r2: seq<Byte>, n2: string)
    requires |r1| == 6 && |r2| == 6
    requires StagedPath(tmp, r1, n1) == StagedPath(tmp, r2, n2)
    ensures r1 == r2
  {
    SameLeafPrefix(tmp, Rand(r1), Basename(n1), Rand(r2), Basename(n2));
    HexInjective(r1, r2);
  }

  /** Inputs staged with different random bytes get different scratch files, so
      no input of a job overwrites another's staged copy. */
  lemma StagedPathsDistinct(tmp: string, rands: seq<seq<Byte>>, inputs: seq<InputRef>)
    requires |rands| == |inputs| && WellFormedRandoms(rands) && DistinctRandoms(rands)
    ensures DistinctPaths(StagedPaths(tmp, rands, inputs))
  {
    var paths := StagedPaths(tmp, rands, inputs);
    forall i, j | 0 <= i < j < |paths| ensures paths[i] != paths[j] {
      if paths[i] == paths[j] {
        StagedPathRandom(tmp, rands[i], inputs[i].name, rands[j], inputs[j].name);
      }
    }
  }

  /** The directory part of an input's name is dropped when it is staged. */
  lemma StagingDropsDirectories(tmp: string, randomBytes: seq<Byte>, dir: string, name: string)
    requires |randomBytes| == 6
    requires '/' !in name && name != ""
    ensures StagedPath(tmp, randomBytes, PathJoin(dir, name)) == StagedPath(tmp, randomBytes, name)
  {
    BasenameOfJoin(dir, name);
  }

  // ---------------------------------------------------------------------------
  // `listLike`

  predicate ListedMatch(f: string, prefix: string, ext: string) {
    StartsWith(f, AfterLastSlash(prefix)) && EndsWith(f, ext)
  }

  /** The entries of the directory listing that start with the last `/`-segment
      of `prefix` and end with `ext`, joined to the directory, in listing order. */
  function ListLike(dir: string, prefix: string, ext: string, listing: seq<string>): (r: seq<string>)
    ensures |r| <= |listing|
    ensures forall f :: f in listing && ListedMatch(f, prefix, ext) ==> PathJoin(dir, f) in r
    ensures forall p :: p in r ==> exists f :: f in listing && ListedMatch(f, prefix, ext) && p == PathJoin(dir, f)
  {
    if listing == [] then []
    else
      var rest := ListLike(dir, prefix, ext, listing[1..]);
      assert forall f :: f in listing[1..] ==> f in listing;
      if ListedMatch(listing[0], prefix, ext) then [PathJoin(dir, listing[0])] + rest else rest
  }

  /** Filtering commutes with concatenating listings, so the listing order is kept. */
  lemma {:induction false} ListLikeKeepsOrder(dir: string, prefix: string, ext: string, a: seq<string>, b: seq<string>)
    ensures ListLike(dir, prefix, ext, a + b) == ListLike(dir, prefix, ext, a) + ListLike(dir, prefix, ext, b)
  {
    if a != [] {
      assert (a + b)[1..] == a[1..] + b;
      assert (a + b)[0] == a[0];
      ListLikeKeepsOrder(dir, prefix, ext, a[1..], b);
    } else {
      assert a + b == b;
    }
  }

  // ---------------------------------------------------------------------------
  // The `docx2pdf` output path

  predicate IsLineTerminator(c: char) {
    c == '\n' || c == '\r' || c == '\U{2028}' || c == '\U{2029}'
  }

  predicate IsSeparator(c: char) {
    c == '/' || c == '\\'
  }

  predicate SingleLine(s: string) {
    forall i :: 0 <= i < |s| ==> !IsLineTerminator(s[i])
  }

  predicate NoSeparator(s: string) {
    forall i :: 0 <= i < |s| ==> !IsSeparator(s[i])
  }

  /** Where the first line of `s` ends: its first line terminator, or `|s|`. */
  function LineEnd(s: string): (e: nat)
    ensures e <= |s| && SingleLine(s[..e])
    ensures e < |s| ==> IsLineTerminator(s[e])
  {
    if s == [] || IsLineTerminator(s[0]) then 0
    else
      var e := 1 + LineEnd(s[1..]);
      assert s[..e] == [s[0]] + s[1..][..e - 1];
      e
  }

  function LastSeparator(line: string): (r: Option<nat>)
    ensures r.None? ==> NoSeparator(line)
    ensures r.Some? ==> r.value < |line| && IsSeparator(line[r.value]) && NoSeparator(line[r.value + 1..])
  {
    if line == [] then None
    else if IsSeparator(line[|line| - 1]) then Some(|line| - 1)
    else
      var r := LastSeparator(line[..|line| - 1]);
      if r.Some? then
        assert line[r.value + 1..] == line[..|line| - 1][r.value + 1..] + [line[|line| - 1]];
        r
      else r
  }

  /** The text `replace` inserts for one match of a pattern without capture
      groups: `$$` stands for `$`, `$&` for the match, `` $` `` for the text
      before the match and `$'` for the text after it; any other character,
      including a `$` that starts none of these, is copied. */
  function Substitute(repl: string, matched: string, before: string, after: string): (r: string)
    ensures '$' !in repl ==> r == repl
    decreases |repl|
  {
    if repl == [] then []
    else if |repl| >= 2 && repl[0] == '$' && repl[1] == '$' then "$" + Substitute(repl[2..], matched, before, after)
    else if |repl| >= 2 && repl[0] == '$' && repl[1] == '&' then matched + Substitute(repl[2..], matched, before, after)
    else if |repl| >= 2 && repl[0] == '$' && repl[1] == '`' then before + Substitute(repl[2..], matched, before, after)
    else if |repl| >= 2 && repl[0] == '$' && repl[1] == '\'' then after + Substitute(repl[2..], matched, before, after)
    else
      assert forall c :: c in repl[1..] ==> c in repl;
      [repl[0]] + Substitute(repl[1..], matched, before, after)
  }

  /** Where a match lies in a text: `s[start..end]`. */
  datatype Span = Span(start: nat, end: nat)

  /** The first match of `/.*[\\/]/` in `s`: it starts at the beginning of the
      first line that holds a `/` or `\` and runs to that line's last separator
      (`.` does not cross a line terminator and is greedy). */
  function SeparatorMatch(s: string): (m: Option<Span>)
    ensures m.Some? ==> m.value.start < m.value.end <= |s| && IsSeparator(s[m.value.end - 1])
    decreases |s|
  {
    var e := LineEnd(s);
    match LastSeparator(s[..e])
    case Some(j) => assert s[..e][j] == s[j]; Some(Span(0, j + 1))
    case None =>
      if e == |s| then None
      else match SeparatorMatch(s[e + 1..])
        case None => None
        case Some(m) =>
          assert s[e + 1..][m.end - 1] == s[m.end + e];
          Some(Span(m.start + e + 1, m.end + e + 1))
  }

  /** `s.replace(/.*[\\/]/, repl)`: the first match is replaced by `repl` with its
      `$` patterns expanded; without a match `s` is kept. */
  function ReplaceThroughLastSeparator(s: string, repl: string): string {
    match SeparatorMatch(s)
    case None => s
    case Some(m) => s[..m.start] + Substitute(repl, s[m.start..m.end], s[..m.start], s[m.end..]) + s[m.end..]
  }

  /** On a single line, everything through the last separator is replaced; the
      replacement is inserted as is when it holds no `$`. */
  lemma ReplaceOnSingleLine(s: string, repl: string, j: nat)
    requires SingleLine(s)
    requires j < |s| && IsSeparator(s[j]) && NoSeparator(s[j + 1..])
    ensures ReplaceThroughLastSeparator(s, repl) == Substitute(repl, s[..j + 1], "", s[j + 1..]) + s[j + 1..]
    ensures '$' !in repl ==> ReplaceThroughLastSeparator(s, repl) == repl + s[j + 1..]
  {
    var e := LineEnd(s);
    assert s[..e] == s;
    assert SeparatorMatch(s) == Some(Span(0, j + 1));
    assert s[..0] == "";
  }

  lemma EndsWithAfterPrefix(a: string, t: string, x: string)
    requires EndsWith(t, x)
    ensures EndsWith(a + t, x)
  {
    assert (a + t)[|a + t| - |x|..] == t[|t| - |x|..];
  }

  lemma EndsWithDrop(s: string, k: nat, x: string)
    requires EndsWith(s, x) && k <= |s| - |x|
    ensures EndsWith(s[k..], x)
  {
    assert s[k..][|s[k..]| - |x|..] == s[|s| - |x|..];
  }

  /** A separator or a line terminator of `s` lies before any plain tail `x`. */
  lemma PlainTailAfter(s: string, x: string, k: nat)
    requires NoSeparator(x) && SingleLine(x) && EndsWith(s, x)
    requires k < |s| && (IsSeparator(s[k]) || IsLineTerminator(s[k]))
    ensures k < |s| - |x|
  {
  }

  /** A tail without separators or line breaks survives the replacement. */
  lemma ReplaceKeepsPlainSuffix(s: string, repl: string, x: string)
    requires NoSeparator(x) && SingleLine(x) && EndsWith(s, x)
    ensures EndsWith(ReplaceThroughLastSeparator(s, repl), x)
  {
    match SeparatorMatch(s)
    case None =>
    case Some(m) =>
      PlainTailAfter(s, x, m.end - 1);
      EndsWithDrop(s, m.end, x);
      EndsWithAfterPrefix(s[..m.start] + Substitute(repl, s[m.start..m.end], s[..m.start], s[m.end..]), s[m.end..], x);
  }

  function LowerAscii(c: char): char {
    if 'A' <= c <= 'Z' then (c as int + 32) as char else c
  }

  /** `/\.docx$/i`: the name ends in `.docx`, letters in either case. */
  predicate EndsWithDocx(s: string) {
    |s| >= 5 && s[|s| - 5] == '.' && LowerAscii(s[|s| - 4]) == 'd' && LowerAscii(s[|s| - 3]) == 'o'
      && LowerAscii(s[|s| - 2]) == 'c' && LowerAscii(s[|s| - 1]) == 'x'
  }

  /** `s.replace(/\.docx$/i, ".pdf")`. */
  function ReplaceDocxSuffix(s: string): (r: string)
    ensures EndsWithDocx(s) ==> EndsWith(r, ".pdf") && r[..|r| - 4] == s[..|s| - 5]
    ensures !EndsWithDocx(s) ==> r == s
  {
    if EndsWithDocx(s) then s[..|s| - 5] + ".pdf" else s
  }

  function Docx2PdfOutPath(tmp: string, staged: string): string {
    ReplaceThroughLastSeparator(ReplaceDocxSuffix(staged), tmp + "/")
  }

  lemma ReplaceDocxSuffixAfterDash(p: string, b: string)
    ensures ReplaceDocxSuffix(p + "-" + b) == p + "-" + ReplaceDocxSuffix(b)
  {
    var q := p + "-";
    var s := q + b;
    if |b| >= 5 {
      assert s[|s| - 1] == b[|b| - 1] && s[|s| - 2] == b[|b| - 2] && s[|s| - 3] == b[|b| - 3];
      assert s[|s| - 4] == b[|b| - 4] && s[|s| - 5] == b[|b| - 5];
      assert EndsWithDocx(s) == EndsWithDocx(b);
      if EndsWithDocx(b) {
        assert s[..|s| - 5] == q + b[..|b| - 5];
        ConcatAssoc(q, b[..|b| - 5], ".pdf");
      }
    } else {
      assert s[|s| - |b| - 1] == '-';
      assert !EndsWithDocx(s);
    }
  }

  lemma ConcatAssoc(a: string, b: string, c: string)
    ensures (a + b) + c == a + (b + c)
  {
  }

  lemma PlainConcat(a: string, b: string)
    ensures NoSeparator(a) && NoSeparator(b) ==> NoSeparator(a + b)
    ensures SingleLine(a) && SingleLine(b) ==> SingleLine(a + b)
  {
    assert forall i :: 0 <= i < |a + b| ==> (a + b)[i] == if i < |a| then a[i] else b[i - |a|];
  }

  lemma ReplaceDocxSuffixPlain(b: string)
    ensures NoSeparator(b) ==> NoSeparator(ReplaceDocxSuffix(b))
    ensures SingleLine(b) ==> SingleLine(ReplaceDocxSuffix(b))
  {
    if EndsWithDocx(b) {
      PlainConcat(b[..|b| - 5], ".pdf");
    }
  }

  lemma SingleLineSlice(s: string, lo: nat, hi: nat)
    requires SingleLine(s) && lo <= hi <= |s|
    ensures SingleLine(s[lo..hi])
  {
    forall i | 0 <= i < hi - lo ensures !IsLineTerminator(s[lo..hi][i]) {
      assert s[lo..hi][i] == s[lo + i];
    }
  }

  lemma NoSeparatorWithout(s: string)
    requires '/' !in s && '\\' !in s
    ensures NoSeparator(s)
  {
    forall i | 0 <= i < |s| ensures !IsSeparator(s[i]) {
      assert s[i] in s;
    }
  }

  /** A segment taken from the end of a prefix of a single-line name is itself single-line. */
  lemma PlainSegment(name: string, t: string, b: string)
    requires SingleLine(name) && StartsWith(name, t) && EndsWith(t, b)
    requires '/' !in b && '\\' !in b
    ensures SingleLine(b) && NoSeparator(b)
  {
    SingleLineSlice(name, 0, |t|);
    SingleLineSlice(t, |t| - |b|, |t|);
    NoSeparatorWithout(b);
  }

  lemma BasenamePlain(name: string)
    requires SingleLine(name) && '\\' !in Basename(name)
    ensures SingleLine(Basename(name)) && NoSeparator(Basename(name))
  {
    PlainSegment(name, TrimTrailingSlashes(name), Basename(name));
  }

  lemma RandPlain(randomBytes: seq<Byte>)
    requires |randomBytes| == 6
    ensures SingleLine(Rand(randomBytes) + "-") && NoSeparator(Rand(randomBytes) + "-")
  {
    var h := Rand(randomBytes);
    forall i | 0 <= i < |h + "-"| ensures !IsLineTerminator((h + "-")[i]) && !IsSeparator((h + "-")[i]) {
      if i < |h| { assert IsLowerHexDigit(h[i]); }
    }
  }

  /** Replacing through the last separator of `<tmp>/<leaf>` by `<tmp>/` keeps the
      leaf behind the expanded directory. */
  lemma ReplaceInScratch(tmp: string, leaf: string)
    requires SingleLine(tmp) && SingleLine(leaf) && NoSeparator(leaf)
    ensures ReplaceThroughLastSeparator(PathJoin(tmp, leaf), tmp + "/") == Substitute(tmp + "/", tmp + "/", "", leaf) + leaf
    ensures '$' !in tmp ==> ReplaceThroughLastSeparator(PathJoin(tmp, leaf), tmp + "/") == PathJoin(tmp, leaf)
  {
    var s := tmp + "/" + leaf;
    PlainConcat(tmp, "/");
    PlainConcat(tmp + "/", leaf);
    assert s[..|tmp| + 1] == tmp + "/";
    assert s[|tmp| + 1..] == leaf;
    ReplaceOnSingleLine(s, tmp + "/", |tmp|);
    if '$' !in tmp {
      assert '$' !in tmp + "/";
    }
  }

  /** For a scratch file whose leaf has no separator or line break, docx2pdf's
      output path is the leaf, with `.docx` turned into `.pdf`, behind the scratch
      directory as `replace` expands it; a directory without `$` is kept as is. */
  lemma Docx2PdfOutPathOfPlainLeaf(tmp: string, h: string, base: string)
    requires SingleLine(tmp) && SingleLine(h + "-") && NoSeparator(h + "-")
    requires SingleLine(base) && NoSeparator(base)
    ensures var leaf := h + "-" + ReplaceDocxSuffix(base);
      Docx2PdfOutPath(tmp, PathJoin(tmp, h + "-" + base)) == Substitute(tmp + "/", tmp + "/", "", leaf) + leaf
    ensures '$' !in tmp ==>
      Docx2PdfOutPath(tmp, PathJoin(tmp, h + "-" + base)) == PathJoin(tmp, h + "-" + ReplaceDocxSuffix(base))
  {
    var base' := ReplaceDocxSuffix(base);
    ConcatAssoc(tmp + "/", h, "-");
    ConcatAssoc(tmp + "/", h + "-", base);
    assert PathJoin(tmp, h + "-" + base) == (tmp + "/" + h) + "-" + base;
    ReplaceDocxSuffixAfterDash(tmp + "/" + h, base);
    var leaf := h + "-" + base';
    ConcatAssoc(tmp + "/", h + "-", base');
    assert ReplaceDocxSuffix(PathJoin(tmp, h + "-" + base)) == PathJoin(tmp, leaf);
    ReplaceDocxSuffixPlain(base);
    PlainConcat(h + "-", base');
    ReplaceInScratch(tmp, leaf);
  }

  /** For a staged name without line breaks or backslashes, in a scratch directory
      without line breaks, the `docx2pdf` output path is the staged file itself
      with a trailing `.docx` (any case) turned into `.pdf`, behind the scratch
      directory as `replace` expands it: the file the converter writes, whenever
      the directory holds no `$`. */
  lemma Docx2PdfOutPathOfStagedFile(tmp: string, randomBytes: seq<Byte>, name: string)
    requires |randomBytes| == 6
    requires SingleLine(tmp) && SingleLine(name) && '\\' !in Basename(name)
    ensures var leaf := Rand(randomBytes) + "-" + ReplaceDocxSuffix(Basename(name));
      Docx2PdfOutPath(tmp, StagedPath(tmp, randomBytes, name)) == Substitute(tmp + "/", tmp + "/", "", leaf) + leaf
    ensures '$' !in tmp ==>
      Docx2PdfOutPath(tmp, StagedPath(tmp, randomBytes, name))
        == PathJoin(tmp, Rand(randomBytes) + "-" + ReplaceDocxSuffix(Basename(name)))
  {
    BasenamePlain(name);
    RandPlain(randomBytes);
    Docx2PdfOutPathOfPlainLeaf(tmp, Rand(randomBytes), Basename(name));
  }

  /** A replacement character other than `$` is copied. */
  lemma SubstitutePlainHead(repl: string, matched: string, before: string, after: string)
    requires repl != [] && repl[0] != '$'
    ensures Substitute(repl, matched, before, after) == [repl[0]] + Substitute(repl[1..], matched, before, after)
  {
  }

  /** In a replacement, `$$` stands for one `$`. */
  lemma {:induction false} SubstituteCollapsesDollars(p: string, q: string, matched: string, before: string, after: string)
    requires '$' !in p && '$' !in q
    ensures Substitute(p + "$$" + q, matched, before, after) == p + "$" + q
    decreases |p|
  {
    var s := p + "$$" + q;
    if p == [] {
      assert s[2..] == q;
    } else {
      assert s[0] == p[0] && s[1..] == p[1..] + "$$" + q;
      SubstitutePlainHead(s, matched, before, after);
      assert forall c :: c in p[1..] ==> c in p;
      SubstituteCollapsesDollars(p[1..], q, matched, before, after);
      assert p + "$" + q == [p[0]] + (p[1..] + "$" + q);
    }
  }

  /** `replace` writes a scratch directory ending in `$$`, followed by `/`, with one `$`. */
  lemma ScratchDollarsCollapse(p: string, leaf: string)
    requires '$' !in p
    ensures Substitute(p + "$$" + "/", p + "$$" + "/", "", leaf) == p + "$/"
  {
    SubstituteCollapsesDollars(p, "/", p + "$$" + "/", "", leaf);
    assert p + "$" + "/" == p + "$/";
  }

  /** A scratch directory whose name ends in `$$` (and has no other `$`) loses
      a `$` in docx2pdf's output path, so that path is not where the converter
      wrote its file. */
  lemma Docx2PdfOutPathWithDollars(p: string, h: string, base: string)
    requires '$' !in p && SingleLine(p)
    requires SingleLine(h + "-") && NoSeparator(h + "-") && SingleLine(base) && NoSeparator(base)
    ensures var leaf := h + "-" + ReplaceDocxSuffix(base);
      Docx2PdfOutPath(p + "$$", PathJoin(p + "$$", h + "-" + base)) == p + "$/" + leaf
    ensures var leaf := h + "-" + ReplaceDocxSuffix(base);
      Docx2PdfOutPath(p + "$$", PathJoin(p + "$$", h + "-" + base)) != PathJoin(p + "$$", leaf)
  {
    var tmp, leaf := p + "$$", h + "-" + ReplaceDocxSuffix(base);
    assert SingleLine("$$");
    PlainConcat(p, "$$");
    Docx2PdfOutPathOfPlainLeaf(tmp, h, base);
    var out := Docx2PdfOutPath(tmp, PathJoin(tmp, h + "-" + base));
    var r := Substitute(tmp + "/", tmp + "/", "", leaf);
    assert out == r + leaf;
    ScratchDollarsCollapse(p, leaf);
    assert |out| < |PathJoin(tmp, leaf)|;
  }

  // ---------------------------------------------------------------------------
  // Dispatch

  /** The commands an operation runs, in order, and the file its result is read from. */
  datatype Plan = Plan(steps: seq<Command>, outPath: string)

  function DefaultOutPath(tmp: string, id: string): string {
    PathJoin(tmp, id + "-out.pdf")
  }

  /** The `switch (op)`: the commands and output path of each operation. Every
      operation but `merge` reads the first staged file only. */
  function PlanJob(op: Op, id: string, tmp: string, local: seq<string>, listing: seq<string>): (r: Result<Plan, JobError>)
    ensures r.Failure? <==> op != Merge && local == []
    ensures r.Failure? ==> r.error == MissingInput
    ensures r.Success? ==> 1 <= |r.value.steps| <= 2
  {
    if op != Merge && local == [] then Failure(MissingInput)
    else
      var out := DefaultOutPath(tmp, id);
      match op
      case Merge =>
        Success(Plan([Command("gs", ["-dBATCH", "-dNOPAUSE", "-q", "-sDEVICE=pdfwrite", "-sOutputFile=" + out] + local)], out))
      case Compress =>
        Success(Plan([Command("gs", ["-dBATCH", "-dNOPAUSE", "-q", "-sDEVICE=pdfwrite", "-dPDFSETTINGS=/ebook",
                                     "-sOutputFile=" + out, local[0]])], out))
      case Split =>
        var base := PathJoin(tmp, id + "-%03d.pdf");
        var zipPath := PathJoin(tmp, id + "-parts.zip");
        var parts := ListLike(tmp, PathJoin(tmp, id + "-"), ".pdf", listing);
        Success(Plan([Command("gs", ["-dBATCH", "-dNOPAUSE", "-sDEVICE=pdfwrite", "-sPageList=1-99999",
                                     "-sOutputFile=" + base, local[0]]),
                      Command("zip", ["-j", zipPath] + parts)], zipPath))
      case Docx2Pdf =>
        Success(Plan([Command("soffice", ["--headless", "--convert-to", "pdf", "--outdir", tmp, local[0]])],
                     Docx2PdfOutPath(tmp, local[0])))
      case Pdf2Docx =>
        Success(Plan([Command("soffice", ["--headless", "--convert-to", "docx", "--outdir", tmp, local[0]])],
                     PathJoin(tmp, id + ".docx")))
      case Ocr =>
        var img := PathJoin(tmp, id + "-%04d.png");
        Success(Plan([Command("magick", [local[0], "-density", "300", img]),
                      Command("tesseract", [PathJoin(tmp, id + "-0001"), PathJoin(tmp, id + "-ocr"), "pdf"])],
                     PathJoin(tmp, id + "-ocr.pdf")))
      case Flatten =>
        Success(Plan([Command("gs", ["-o", out, "-sDEVICE=pdfwrite", "-dPDFSETTINGS=/prepress",
                                     "-dDetectDuplicateImages=true", local[0]])], out))
  }

  /** `merge` hands every staged file, in input order, to one `gs` call; every
      other operation depends on the first staged file alone. */
  lemma PlanInputs(op: Op, id: string, tmp: string, local: seq<string>, listing: seq<string>)
    ensures op == Merge ==>
      var r := PlanJob(op, id, tmp, local, listing);
      r.Success? && |r.value.steps| == 1 && r.value.steps[0].program == "gs"
        && r.value.steps[0].args[5..] == local
    ensures op != Merge && local != [] ==>
      PlanJob(op, id, tmp, local, listing) == PlanJob(op, id, tmp, [local[0]], listing)
  {
  }

  // ---------------------------------------------------------------------------
  // The output key

  /** The extension chosen from the output path: `.zip`, else `.docx`, else `.pdf`. */
  function OutputExtension(outPath: string): (r: string)
    ensures r == ".zip" <==> EndsWith(outPath, ".zip")
    ensures r == ".docx" <==> !EndsWith(outPath, ".zip") && EndsWith(outPath, ".docx")
    ensures r == ".pdf" <==> !EndsWith(outPath, ".zip") && !EndsWith(outPath, ".docx")
  {
    if EndsWith(outPath, ".zip") then ".zip" else if EndsWith(outPath, ".docx") then ".docx" else ".pdf"
  }

  /** `out/<id>/<timestamp>-<op><ext>`. */
  function OutputKey(id: string, now: nat, op: string, outPath: string): string {
    ("out/" + id + "/") + ((NatToString(now) + "-" + op) + OutputExtension(outPath))
  }

  /** Every output key lies under `out/<id>/`, carries the timestamp and the
      operation, and ends in the extension of its output path. */
  lemma OutputKeyShape(id: string, now: nat, op: string, outPath: string)
    ensures StartsWith(OutputKey(id, now, op, outPath), "out/" + id + "/")
    ensures OutputKey(id, now, op, outPath)[|id| + 5..]
         == NatToString(now) + "-" + op + OutputExtension(outPath)
    ensures EndsWith(OutputKey(id, now, op, outPath), OutputExtension(outPath))
  {
    var dir := "out/" + id + "/";
    var stem := NatToString(now) + "-" + op;
    var ext := OutputExtension(outPath);
    var k := dir + (stem + ext);
    assert |dir| == |id| + 5;
    StartsWithPrepended(dir, stem + ext);
    assert k[|dir|..] == stem + ext;
    EndsWithAppended(stem, ext);
    EndsWithAfterPrefix(dir, stem + ext, ext);
  }

  lemma OutputExtensionOfSuffix(p: string, x: string)
    requires x in {".zip", ".docx", ".pdf"} && EndsWith(p, x)
    ensures OutputExtension(p) == x
  {
    assert p[|p| - 1] == x[|x| - 1];
    if x == ".pdf" {
      assert p[|p| - 4] == '.';
    }
  }

  /** A path joined from a stem and one of the three extensions has that extension. */
  lemma ExtensionOfJoined(tmp: string, stem: string, x: string)
    requires x in {".zip", ".docx", ".pdf"}
    ensures OutputExtension(PathJoin(tmp, stem + x)) == x
  {
    ConcatAssoc(tmp + "/", stem, x);
    EndsWithAppended(tmp + "/" + stem, x);
    OutputExtensionOfSuffix(PathJoin(tmp, stem + x), x);
  }

  /** Where each operation's result is read from. */
  lemma PlanOutPath(op: Op, id: string, tmp: string, local: seq<string>, listing: seq<string>)
    requires PlanJob(op, id, tmp, local, listing).Success?
    ensures var out := PlanJob(op, id, tmp, local, listing).value.outPath;
      && (op == Merge || op == Compress || op == Flatten ==> out == PathJoin(tmp, (id + "-out") + ".pdf"))
      && (op == Split ==> out == PathJoin(tmp, (id + "-parts") + ".zip"))
      && (op == Docx2Pdf ==> out == Docx2PdfOutPath(tmp, local[0]))
      && (op == Pdf2Docx ==> out == PathJoin(tmp, id + ".docx"))
      && (op == Ocr ==> out == PathJoin(tmp, (id + "-ocr") + ".pdf"))
  {
    ConcatAssoc(id, "-out", ".pdf");
    ConcatAssoc(id, "-parts", ".zip");
    ConcatAssoc(id, "-ocr", ".pdf");
  }

  /** `docx2pdf` of a `.docx` input reads back a `.pdf`. */
  lemma Docx2PdfExtension(tmp: string, staged: string)
    requires EndsWithDocx(staged)
    ensures OutputExtension(Docx2PdfOutPath(tmp, staged)) == ".pdf"
  {
    ReplaceKeepsPlainSuffix(ReplaceDocxSuffix(staged), tmp + "/", ".pdf");
    OutputExtensionOfSuffix(Docx2PdfOutPath(tmp, staged), ".pdf");
  }

  /** `split` uploads a `.zip`, `pdf2docx` a `.docx`, and every other operation a
      `.pdf` (for `docx2pdf`, when the staged input ends in `.docx`). */
  lemma OutputExtensionByOp(op: Op, id: string, tmp: string, local: seq<string>, listing: seq<string>)
    requires PlanJob(op, id, tmp, local, listing).Success?
    ensures var ext := OutputExtension(PlanJob(op, id, tmp, local, listing).value.outPath);
      && (op == Split ==> ext == ".zip")
      && (op == Pdf2Docx ==> ext == ".docx")
      && (op in {Merge, Compress, Ocr, Flatten} ==> ext == ".pdf")
      && (op == Docx2Pdf && EndsWithDocx(local[0]) ==> ext == ".pdf")
  {
    PlanOutPath(op, id, tmp, local, listing);
    var out := PlanJob(op, id, tmp, local, listing).value.outPath;
    if op == Split {
      ExtensionOfJoined(tmp, id + "-parts", ".zip");
    } else if op == Pdf2Docx {
      ExtensionOfJoined(tmp, id, ".docx");
    } else if op == Ocr {
      ExtensionOfJoined(tmp, id + "-ocr", ".pdf");
    } else if op == Docx2Pdf {
      if EndsWithDocx(local[0]) {
        Docx2PdfExtension(tmp, local[0]);
      }
    } else {
      ExtensionOfJoined(tmp, id + "-out", ".pdf");
    }
  }

  /** The first input whose key the bucket does not hold. */
  function FirstUnstored(bucket: Bucket, inputs: seq<InputRef>): (r: Option<nat>)
    ensures r.None? <==> forall i :: 0 <= i < |inputs| ==> inputs[i].key in bucket
    ensures r.Some? ==> r.value < |inputs| && inputs[r.value].key !in bucket
    ensures r.Some? ==> forall i :: 0 <= i < r.value ==> inputs[i].key in bucket
  {
    if inputs == [] then None
    else if inputs[0].key !in bucket then Some(0)
    else match FirstUnstored(bucket, inputs[1..])
      case None => None
      case Some(k) => Some(k + 1)
  }

  /** The first missing input is the one before which every input is present. */
  lemma {:induction false} FirstUnstoredAt(bucket: Bucket, inputs: seq<InputRef>, i: nat)
    requires i < |inputs| && inputs[i].key !in bucket
    requires forall k :: 0 <= k < i ==> inputs[k].key in bucket
    ensures FirstUnstored(bucket, inputs) == Some(i)
  {
    if i > 0 {
      assert inputs[0].key in bucket;
      FirstUnstoredAt(bucket, inputs[1..], i - 1);
    }
  }

  predicate AllStored(bucket: Bucket, inputs: seq<InputRef>) {
    forall i :: 0 <= i < |inputs| ==> inputs[i].key in bucket
  }

  /** The scratch directory after the object of each `inputs[i]` is copied to
      `paths[i]`, one after another. */
  function Fetched(scratch: map<string, seq<Byte>>, bucket: Bucket, inputs: seq<InputRef>, paths: seq<string>)
    : map<string, seq<Byte>>
    requires |paths| == |inputs| && AllStored(bucket, inputs)
  {
    if inputs == [] then scratch
    else
      var n := |inputs| - 1;
      assert AllStored(bucket, inputs[..n]) by {
        forall i | 0 <= i < n ensures inputs[..n][i].key in bucket {
          assert inputs[..n][i] == inputs[i];
        }
      }
      Fetched(scratch, bucket, inputs[..n], paths[..n])[paths[n] := bucket[inputs[n].key].body]
  }

  predicate DistinctPaths(paths: seq<string>) {
    forall i, j :: 0 <= i < j < |paths| ==> paths[i] != paths[j]
  }

  /** With distinct paths, each scratch file holds the bytes of its own input:
      no later copy overwrites it. */
  lemma {:induction false} FetchedHoldsEachInput(scratch: map<string, seq<Byte>>, bucket: Bucket,
                                                  inputs: seq<InputRef>, paths: seq<string>, i: nat)
    requires |paths| == |inputs| && AllStored(bucket, inputs) && DistinctPaths(paths) && i < |inputs|
    ensures paths[i] in Fetched(scratch, bucket, inputs, paths)
    ensures Fetched(scratch, bucket, inputs, paths)[paths[i]] == bucket[inputs[i].key].body
  {
    var n := |inputs| - 1;
    if i < n {
      var ins, ps := inputs[..n], paths[..n];
      assert ins[i] == inputs[i] && ps[i] == paths[i];
      assert paths[i] != paths[n];
      assert AllStored(bucket, ins) by {
        forall k | 0 <= k < n ensures ins[k].key in bucket {
          assert ins[k] == inputs[k];
        }
      }
      assert DistinctPaths(ps) by {
        forall a, b | 0 <= a < b < n ensures ps[a] != ps[b] {
          assert ps[a] == paths[a] && ps[b] == paths[b];
        }
      }
      FetchedHoldsEachInput(scratch, bucket, ins, ps, i);
    }
  }

  /** A scratch file at no input's path keeps its contents, and no other file appears. */
  lemma {:induction false} FetchedKeepsOthers(scratch: map<string, seq<Byte>>, bucket: Bucket,
                                               inputs: seq<InputRef>, paths: seq<string>, p: string)
    requires |paths| == |inputs| && AllStored(bucket, inputs)
    requires forall i :: 0 <= i < |paths| ==> paths[i] != p
    ensures p in Fetched(scratch, bucket, inputs, paths) <==> p in scratch
    ensures p in scratch ==> Fetched(scratch, bucket, inputs, paths)[p] == scratch[p]
  {
    if inputs != [] {
      var n := |inputs| - 1;
      var ins, ps := inputs[..n], paths[..n];
      assert forall i :: 0 <= i < n ==> ps[i] == paths[i];
      assert paths[n] != p;
      assert AllStored(bucket, ins) by {
        forall k | 0 <= k < n ensures ins[k].key in bucket {
          assert ins[k] == inputs[k];
        }
      }
      FetchedKeepsOthers(scratch, bucket, ins, ps, p);
    }
  }

  /** With distinct random bytes, every staged file holds its own input's stored bytes. */
  lemma StagedFilesHoldInputs(scratch: map<string, seq<Byte>>, bucket: Bucket, tmp: string,
                              rands: seq<seq<Byte>>, inputs: seq<InputRef>, i: nat)
    requires |rands| == |inputs| && WellFormedRandoms(rands) && DistinctRandoms(rands)
    requires AllStored(bucket, inputs) && i < |inputs|
    ensures var paths := StagedPaths(tmp, rands, inputs);
      paths[i] in Fetched(scratch, bucket, inputs, paths)
        && Fetched(scratch, bucket, inputs, paths)[paths[i]] == bucket[inputs[i].key].body
  {
    StagedPathsDistinct(tmp, rands, inputs);
    FetchedHoldsEachInput(scratch, bucket, inputs, StagedPaths(tmp, rands, inputs), i);
  }

  class WorkerHost {
    var bucket: Bucket
    var scratch: map<string, seq<Byte>>

    constructor (bucket: Bucket)
      ensures this.bucket == bucket && scratch == map[]
    {
      this.bucket := bucket;
      scratch := map[];
    }

    /** Copies each input from the store into the scratch directory at the
        matching path, in order, stopping at the first input the store does
        not hold. */
    method Fetch(inputs: seq<InputRef>, paths: seq<string>) returns (missing: Option<JobError>)
      requires |paths| == |inputs|
      modifies this
      ensures bucket == old(bucket)
      ensures FirstUnstored(bucket, inputs).Some? ==>
        var k := FirstUnstored(bucket, inputs).value;
        missing == Some(FetchFailed(inputs[k].key))
          && scratch == Fetched(old(scratch), bucket, inputs[..k], paths[..k])
      ensures FirstUnstored(bucket, inputs).None? ==>
        missing.None? && scratch == Fetched(old(scratch), bucket, inputs, paths)
    {
      for i := 0 to |inputs|
        invariant bucket == old(bucket)
        invariant AllStored(bucket, inputs[..i])
        invariant scratch == Fetched(old(scratch), bucket, inputs[..i], paths[..i])
      {
        if inputs[i].key !in bucket {
          FirstUnstoredAt(bucket, inputs, i);
          return Some(FetchFailed(inputs[i].key));
        }
        assert inputs[..i + 1][..i] == inputs[..i] && paths[..i + 1][..i] == paths[..i];
        assert inputs[..i + 1][i] == inputs[i] && paths[..i + 1][i] == paths[i];
        scratch := scratch[paths[i] := bucket[inputs[i].key].body];
      }
      assert inputs[..|inputs|] == inputs && paths[..|inputs|] == paths;
      missing := None;
    }

    /** Stages every input under its own scratch name (see `StagedPaths`). */
    method Stage(inputs: seq<InputRef>, tmp: string, rands: seq<seq<Byte>>)
      returns (missing: Option<JobError>, localFiles: seq<string>)
      requires |rands| == |inputs| && WellFormedRandoms(rands)
      modifies this
      ensures bucket == old(bucket)
      ensures FirstUnstored(bucket, inputs).Some? ==>
        var k := FirstUnstored(bucket, inputs).value;
        missing == Some(FetchFailed(inputs[k].key))
          && scratch == Fetched(old(scratch), bucket, inputs[..k], StagedPaths(tmp, rands, inputs)[..k])
      ensures FirstUnstored(bucket, inputs).None? ==>
        missing.None? && localFiles == StagedPaths(tmp, rands, inputs)
          && scratch == Fetched(old(scratch), bucket, inputs, localFiles)
    {
      localFiles := StagedPaths(tmp, rands, inputs);
      missing := Fetch(inputs, localFiles);
    }

    /** Reads the output file and writes it to the store under `key`; `putFault`
        is the message the store's write throws, if it throws. */
    method Upload(outPath: string, key: string, putFault: Option<string>) returns (r: Result<JobResult, JobError>)
      modifies this
      ensures scratch == old(scratch)
      ensures outPath !in scratch ==> r == Failure(ReadFailed(outPath)) && bucket == old(bucket)
      ensures outPath in scratch && putFault.Some? ==>
        r == Failure(UploadFailed(putFault.value)) && bucket == old(bucket)
      ensures outPath in scratch && putFault.None? ==>
        r == Success(JobResult(key)) && bucket == old(bucket)[key := StoredObject(scratch[outPath], None)]
    {
      if outPath !in scratch {
        return Failure(ReadFailed(outPath));
      }
      if putFault.Some? {
        return Failure(UploadFailed(putFault.value));
      }
      bucket := bucket[key := StoredObject(scratch[outPath], None)];
      r := Success(JobResult(key));
    }

    /** Awaits the commands one after another: each one writes its files, and
        the first that does not exit with 0 ends the run. Returns its index. */
    method RunSteps(steps: seq<Command>, exit: Command -> ExitStatus, writes: Command -> map<string, seq<Byte>>)
      returns (failing: Option<nat>)
      modifies this
      ensures failing == FirstFailingStep(steps, exit)
      ensures bucket == old(bucket)
      ensures failing.Some? ==> scratch == Written(old(scratch), steps[..failing.value + 1], writes)
      ensures failing.None? ==> scratch == Written(old(scratch), steps, writes)
    {
      var i := 0;
      while i < |steps|
        invariant 0 <= i <= |steps|
        invariant bucket == old(bucket)
        invariant scratch == Written(old(scratch), steps[..i], writes)
        invariant forall j :: 0 <= j < i ==> Run(steps[j], exit(steps[j])).None?
      {
        WrittenAppend(old(scratch), steps[..i], steps[i], writes);
        assert steps[..i + 1] == steps[..i] + [steps[i]];
        scratch := scratch + writes(steps[i]);
        if Run(steps[i], exit(steps[i])).Some? {
          FirstFailingStepAt(steps, exit, i);
          return Some(i);
        }
        i := i + 1;
      }
      assert steps[..i] == steps;
      return None;
    }

    /** One attempt at a job. `rands` are the random bytes of each staged name,
        `now` the clock when the key is formed, `exit` the status each command
        ends with, `listing` the scratch directory as `split` lists it,
        `writes` the files each command writes and `putFault` the message the
        output's upload throws, if it throws. Nothing is uploaded unless every
        step succeeds, and scratch files are never removed. */
    method Process(job: JobData, tmp: string, rands: seq<seq<Byte>>, now: nat,
                   exit: Command -> ExitStatus, listing: seq<string>, writes: Command -> map<string, seq<Byte>>,
                   putFault: Option<string>)
      returns (r: Result<JobResult, JobError>)
      requires |rands| == |job.inputs| && WellFormedRandoms(rands)
      modifies this
      ensures r.Failure? ==> bucket == old(bucket)
      ensures FirstUnstored(old(bucket), job.inputs).Some? ==>
        var k := FirstUnstored(old(bucket), job.inputs).value;
        r == Failure(FetchFailed(job.inputs[k].key))
          && scratch == Fetched(old(scratch), old(bucket), job.inputs[..k], StagedPaths(tmp, rands, job.inputs)[..k])
      ensures FirstUnstored(old(bucket), job.inputs).None? ==>
        var local := StagedPaths(tmp, rands, job.inputs);
        var staged := Fetched(old(scratch), old(bucket), job.inputs, local);
        && (ParseOp(job.op).None? ==> r == Failure(UnknownOp(job.op)) && scratch == staged)
        && (ParseOp(job.op).Some? ==>
              var plan := PlanJob(ParseOp(job.op).value, job.id, tmp, local, listing);
              && (plan.Failure? ==> r == Failure(plan.error) && scratch == staged)
              && (plan.Success? && FirstFailingStep(plan.value.steps, exit).Some? ==>
                    var k := FirstFailingStep(plan.value.steps, exit).value;
                    var step := plan.value.steps[k];
                    r == Failure(CommandFailed(step, exit(step)))
                      && scratch == Written(staged, plan.value.steps[..k + 1], writes))
              && (plan.Success? && FirstFailingStep(plan.value.steps, exit).None? ==>
                    var out := plan.value.outPath;
                    var key := OutputKey(job.id, now, job.op, out);
                    && scratch == Written(staged, plan.value.steps, writes)
                    && (out !in scratch ==> r == Failure(ReadFailed(out)))
                    && (out in scratch && putFault.Some? ==> r == Failure(UploadFailed(putFault.value)))
                    && (out in scratch && putFault.None? ==>
                          r == Success(JobResult(key)) && bucket == old(bucket)[key := StoredObject(scratch[out], None)])))
    {
      var missing, localFiles := Stage(job.inputs, tmp, rands);
      if missing.Some? {
        r := Failure(missing.value);
        return;
      }
      var op := ParseOp(job.op);
      if op.None? {
        r := Failure(UnknownOp(job.op));
        return;
      }
      var plan := PlanJob(op.value, job.id, tmp, localFiles, listing);
      if plan.Failure? {
        r := Failure(plan.error);
        return;
      }
      var failing := RunSteps(plan.value.steps, exit, writes);
      if failing.Some? {
        var step := plan.value.steps[failing.value];
        r := Failure(CommandFailed(step, exit(step)));
        return;
      }
      var outPath := plan.value.outPath;
      r := Upload(outPath, OutputKey(job.id, now, job.op, outPath), putFault);
    }
  }

  /** An unknown operation fails with `Unknown op <op>` once the inputs are staged. */
  lemma UnknownOpMessage(op: string)
    requires ParseOp(op).None?
    ensures Message(UnknownOp(op)) == Some("Unknown op " + op)
    ensures forall known: Op :: op != OpName(known)
  {
  }
}
