/** The pure helpers of `HttpServer.cpp` and the per-request bookkeeping of
    its accept loop: Content-Length extraction, the workload estimate, the
    WFQ weight, task ids, static-file paths and MIME types. */
module HttpServerHelpers {
  import opened Wrappers
  import opened Text
  import opened Tasks
  import opened HttpParser
  import opened Responses

  // ---------------------------------------------------------------------
  // endsWith
  // ---------------------------------------------------------------------

  /** `endsWith`: compares from the back, character by character. */
  function EndsWith(s: string, suffix: string): (b: bool)
    ensures b <==> |suffix| <= |s| && s[|s| - |suffix|..] == suffix
  {
    if |suffix| > |s| then false
    else if suffix == [] then true
    else s[|s| - 1] == suffix[|suffix| - 1] && EndsWith(s[..|s| - 1], suffix[..|suffix| - 1])
  }

  // ---------------------------------------------------------------------
  // parseContentLength
  // ---------------------------------------------------------------------

  const ContentLengthKey: string := "Content-Length:"

  predicate IsBlank(c: char) { c == ' ' || c == '\t' }

  /** `s` without its leading spaces and tabs. */
  function SkipBlanks(s: string): (r: string)
    ensures |r| <= |s| && r == s[|s| - |r|..]
    ensures r == [] || !IsBlank(r[0])
  {
    if s != [] && IsBlank(s[0]) then SkipBlanks(s[1..]) else s
  }

  /** The value `parseContentLength` returns: 0 when the exact-case key does
      not occur; otherwise the value of the digits that follow its first
      occurrence after any spaces and tabs, 0 when there are none. */
  function ContentLengthValue(headers: string): nat
  {
    ValueAfterKey(headers, FindFirst(headers, ContentLengthKey))
  }

  /** The digits after the key found at `found`, 0 when it was not found. */
  function ValueAfterKey(headers: string, found: Option<nat>): nat
  {
    match found
    case None => 0
    case Some(p) =>
      if p + |ContentLengthKey| <= |headers|
      then DigitsAfterBlanks(headers[p + |ContentLengthKey|..])
      else 0
  }

  /** The value of the digits that start `s` once its blanks are skipped. */
  function DigitsAfterBlanks(s: string): nat
  {
    DigitsValue(LeadingDigits(SkipBlanks(s)))
  }

  /** Advances `pos` past spaces and tabs. */
  method SkipBlanksFrom(s: string, pos0: nat) returns (pos: nat)
    requires pos0 <= |s|
    ensures pos0 <= pos <= |s| && s[pos..] == SkipBlanks(s[pos0..])
  {
    pos := pos0;
    while pos < |s| && IsBlank(s[pos])
      invariant pos0 <= pos <= |s|
      invariant SkipBlanks(s[pos0..]) == SkipBlanks(s[pos..])
    {
      assert s[pos..][1..] == s[pos + 1..];
      pos := pos + 1;
    }
  }

  /** Accumulates the decimal digits that start at `start`. */
  method DigitsFrom(s: string, start: nat) returns (val: nat)
    requires start <= |s|
    ensures val == DigitsValue(LeadingDigits(s[start..]))
  {
    ghost var digits := LeadingDigits(s[start..]);
    LeadingDigitsSpan(s[start..]);
    var pos := start;
    val := 0;
    while pos < |s| && IsDigit(s[pos])
      invariant start <= pos <= start + |digits|
      invariant s[start..pos] == digits[..pos - start]
      invariant val == DigitsValue(digits[..pos - start])
    {
      assert s[start..][pos - start] == s[pos];
      assert digits[..pos - start + 1][..pos - start] == digits[..pos - start];
      val := val * 10 + (s[pos] as int - '0' as int);
      pos := pos + 1;
    }
    assert digits[..pos - start] == digits;
  }

  /** `parseContentLength`: finds the key, advances past blanks, then
      accumulates decimal digits. */
  method ParseContentLength(headers: string) returns (val: int)
    ensures val == ContentLengthValue(headers)
    ensures val >= 0
  {
    var found := FindFirst(headers, ContentLengthKey);
    if found.None? {
      return 0;
    }
    KeyFits(headers, found.value);
    var start := found.value + |ContentLengthKey|;
    var pos := SkipBlanksFrom(headers, start);
    val := DigitsFrom(headers, pos);
    assert val == DigitsAfterBlanks(headers[start..]);
    ValueAtKey(headers, found.value);
  }

  lemma KeyFits(headers: string, p: nat)
    requires FindFirst(headers, ContentLengthKey) == Some(p)
    ensures p + |ContentLengthKey| <= |headers|
  {
  }

  lemma ValueAtKey(headers: string, p: nat)
    requires p + |ContentLengthKey| <= |headers|
    ensures ValueAfterKey(headers, Some(p)) == DigitsAfterBlanks(headers[p + |ContentLengthKey|..])
  {
  }

  /** What the server reads back from a response it built: the
      Content-Length value is the body's length, provided the status line
      does not itself contain "Content-Length:". A caller-supplied
      Content-Length header comes later in the output and is not the one
      read. */
  lemma ContentLengthRoundTrip(r: Response, order: seq<string>)
    requires IsOrdering(order, r.headers)
    requires FindFirst(StatusLine(r), ContentLengthKey).None?
    ensures ContentLengthValue(Serialized(r, order)) == |r.body|
  {
    var after := Crlf + (HeaderBlock(r.headers, order) + Crlf + r.body);
    var v := " " + (NatToDecimal(|r.body|) + after);
    SerializedAroundKey(r, order);
    KeyStartsRest(StatusLine(r), ContentLengthKey + v);
    ValueAfterFoundKey(StatusLine(r), v);
    ValueOfRenderedLength(|r.body|, after);
  }

  /** The serialized response seen around the builder's Content-Length key. */
  lemma SerializedAroundKey(r: Response, order: seq<string>)
    requires IsOrdering(order, r.headers)
    ensures Serialized(r, order)
            == StatusLine(r) + (ContentLengthKey + (" " + (NatToDecimal(|r.body|) + (Crlf + (HeaderBlock(r.headers, order) + Crlf + r.body)))))
  {
    var digits := NatToDecimal(|r.body|);
    var tail := HeaderBlock(r.headers, order) + Crlf + r.body;
    LineAroundKey(digits);
    Regroup(StatusLine(r), ContentLengthLine(r), HeaderBlock(r.headers, order), Crlf, r.body);
    Regroup2(StatusLine(r), ContentLengthKey + " " + digits, Crlf, tail);
  }

  lemma LineAroundKey(digits: string)
    ensures "Content-Length: " + digits + Crlf == ContentLengthKey + " " + digits + Crlf
  {
    assert "Content-Length: " == ContentLengthKey + " ";
  }

  lemma Regroup(a: string, b: string, c: string, d: string, e: string)
    ensures a + b + c + d + e == a + b + (c + d + e)
  {
  }

  lemma Regroup2(a: string, kd: string, crlf: string, tail: string)
    requires |kd| >= |ContentLengthKey| + 1 && kd[..|ContentLengthKey| + 1] == ContentLengthKey + " "
    ensures a + (kd + crlf) + tail == a + (ContentLengthKey + (" " + (kd[|ContentLengthKey| + 1..] + (crlf + tail))))
  {
    assert kd == ContentLengthKey + " " + kd[|ContentLengthKey| + 1..];
  }

  /** What follows the key found right after `status`. */
  lemma ValueAfterFoundKey(status: string, v: string)
    ensures ValueAfterKey(status + (ContentLengthKey + v), Some(|status|)) == DigitsAfterBlanks(v)
  {
    assert (status + (ContentLengthKey + v))[|status| + |ContentLengthKey|..] == v;
  }

  /** The first "Content-Length:" of `status + rest` is where `rest` starts
      with it, when the status line has none and ends in a line break. */
  lemma KeyStartsRest(status: string, rest: string)
    requires |status| > 0 && status[|status| - 1] == '\n'
    requires FindFirst(status, ContentLengthKey).None?
    requires ContentLengthKey <= rest
    ensures FindFirst(status + rest, ContentLengthKey) == Some(|status|)
  {
    FindFirstAfterSeam(status, rest, ContentLengthKey);
    assert rest[..|ContentLengthKey|] == ContentLengthKey;
    assert OccursAt(rest, ContentLengthKey, 0);
  }

  /** A blank, a rendered number and a line break read back as that number. */
  lemma ValueOfRenderedLength(n: nat, after: string)
    requires after != [] && after[0] == '\r'
    ensures DigitsAfterBlanks(" " + (NatToDecimal(n) + after)) == n
  {
    var digits := NatToDecimal(n);
    SkipOneBlank(digits + after);
    LeadingDigitsOfConcat(digits, after);
    DecimalRoundTrip(n);
  }

  lemma SkipOneBlank(x: string)
    requires x != [] && !IsBlank(x[0])
    ensures SkipBlanks(" " + x) == x
  {
    assert (" " + x)[1..] == x;
  }

  // ---------------------------------------------------------------------
  // estimateTaskWorkload, weight, reqSize, task ids
  // ---------------------------------------------------------------------

  /** `estimateTaskWorkload`: one unit per started ten characters of path
      plus body, so at least 1. */
  function EstimateTaskWorkload(req: Request): (w: int)
    ensures w >= 1
    ensures (w - 1) * 10 <= |req.path| + |req.body| < w * 10
  {
    var w := |req.path|;
    var w' := if req.body != [] then w + |req.body| else w;
    w' / 10 + 1
  }

  /** The WFQ weight for an estimate and a method: 3, 2 or 1 for light,
      medium and heavy estimates, one more for GET, capped at 5. */
  function WeightFor(est: int, verb: string): (w: int)
    ensures 1 <= w <= 4
    ensures w == 4 <==> est <= 50 && verb == "GET"
  {
    var base := if est <= 50 then 3 else if est <= 200 then 2 else 1;
    var w := if verb == "GET" then base + 1 else base;
    if w < 5 then w else 5
  }

  /** The weight assignment in the accept loop, as successive updates. */
  method AssignWeight(est: int, verb: string) returns (weight: int)
    ensures weight == WeightFor(est, verb)
  {
    if est <= 50 {
      weight := 3;
    } else if est <= 200 {
      weight := 2;
    } else {
      weight := 1;
    }
    if verb == "GET" {
      weight := weight + 1;
    }
    if weight > 5 {
      weight := 5;
    }
  }

  /** A heavier estimate never gets a larger weight. */
  lemma {:induction false} WeightNonIncreasing(e1: int, e2: int, verb: string)
    requires e1 <= e2
    ensures WeightFor(e2, verb) <= WeightFor(e1, verb)
  {
    if e2 <= 50 {
      assert e1 <= 50;
    } else if e2 <= 200 {
      assert WeightFor(e2, verb) == 2 + (if verb == "GET" then 1 else 0);
    }
  }

  /** GET requests get exactly one more weight than any other method with
      the same estimate; the cap of 5 never takes effect. */
  lemma GetIsPreferred(est: int, verb: string)
    requires verb != "GET"
    ensures WeightFor(est, "GET") == WeightFor(est, verb) + 1
  {
  }

  /** `req_size`: the body length, or the path length when the body is empty. */
  function ReqSize(req: Request): (n: nat)
    ensures |req.body| == 0 ==> n == |req.path|
    ensures |req.body| > 0 ==> n == |req.body|
  {
    if |req.body| != 0 then |req.body| else |req.path|
  }

  /** What the accept loop derives from one parsed request before handing
      the task to the scheduler. */
  datatype Admission = Admission(task: Task, verb: string, pathLength: nat, reqSize: nat)

  class Server {
    /** `nextTaskId`. */
    var nextTaskId: int

    constructor ()
      ensures nextTaskId == 0
    {
      nextTaskId := 0;
    }

    /** One accepted request: the next id, the workload estimate, the weight,
        and the task built from them (remaining time starts at the estimate). */
    method Admit(req: Request) returns (a: Admission)
      modifies this
      ensures nextTaskId == old(nextTaskId) + 1
      ensures a.task == NewTask(old(nextTaskId), EstimateTaskWorkload(req), WeightFor(EstimateTaskWorkload(req), req.verb))
      ensures a.verb == req.verb && a.pathLength == |req.path| && a.reqSize == ReqSize(req)
    {
      var est := EstimateTaskWorkload(req);
      var id := nextTaskId;
      nextTaskId := nextTaskId + 1;
      var reqSize := |req.body|;
      if reqSize == 0 {
        reqSize := |req.path|;
      }
      var weight := AssignWeight(est, req.verb);
      a := Admission(NewTask(id, est, weight), req.verb, |req.path|, reqSize);
    }
  }

  /** Requests admitted by a fresh server get the ids 0, 1, 2, ... in order;
      every task's weight lies in 1..4 and its estimate is at least 1. */
  method AdmitAll(reqs: seq<Request>) returns (tasks: seq<Task>)
    ensures |tasks| == |reqs|
    ensures forall i :: 0 <= i < |tasks| ==> tasks[i].id == i
    ensures forall i :: 0 <= i < |tasks| ==> 1 <= tasks[i].weight <= 4 && tasks[i].estimatedTime >= 1
    ensures forall i :: 0 <= i < |tasks| ==> tasks[i].remainingTime == tasks[i].estimatedTime
  {
    var server := new Server();
    tasks := [];
    for i := 0 to |reqs|
      invariant server.nextTaskId == i && |tasks| == i
      invariant forall j :: 0 <= j < i ==> tasks[j].id == j
      invariant forall j :: 0 <= j < i ==> 1 <= tasks[j].weight <= 4 && tasks[j].estimatedTime >= 1
      invariant forall j :: 0 <= j < i ==> tasks[j].remainingTime == tasks[j].estimatedTime
    {
      var a := server.Admit(reqs[i]);
      tasks := tasks + [a.task];
    }
  }

  // ---------------------------------------------------------------------
  // Static files and file paths
  // ---------------------------------------------------------------------

  /** The file `serveStaticFile` opens for a request path. */
  function StaticFilePath(path: string): (p: string)
    ensures path == "/" ==> p == "www/index.html"
    ensures path != "/" ==> p == "www" + path
  {
    var full := "www" + path;
    if path == "/" then "www/index.html" else full
  }

  /** The Content-Type `serveStaticFile` sets, by the first suffix that
      matches. No two of the listed suffixes can end the same string, so
      each type is chosen exactly when its suffix is present. */
  function ContentTypeFor(fullPath: string): (t: string)
    ensures t == "text/html" <==> EndsWith(fullPath, ".html")
    ensures t == "text/css" <==> EndsWith(fullPath, ".css")
    ensures t == "application/javascript" <==> EndsWith(fullPath, ".js")
    ensures t == "image/png" <==> EndsWith(fullPath, ".png")
    ensures t == "image/jpeg" <==> EndsWith(fullPath, ".jpg") || EndsWith(fullPath, ".jpeg")
    ensures t == "application/octet-stream" <==>
              !(EndsWith(fullPath, ".html") || EndsWith(fullPath, ".css") || EndsWith(fullPath, ".js")
                || EndsWith(fullPath, ".png") || EndsWith(fullPath, ".jpg") || EndsWith(fullPath, ".jpeg"))
  {
    if EndsWith(fullPath, ".html") then "text/html"
    else if EndsWith(fullPath, ".css") then "text/css"
    else if EndsWith(fullPath, ".js") then "application/javascript"
    else if EndsWith(fullPath, ".png") then "image/png"
    else if EndsWith(fullPath, ".jpg") || EndsWith(fullPath, ".jpeg") then "image/jpeg"
    else "application/octet-stream"
  }

  const FilePrefix: string := "/api/file/"
  const FileRoot: string := "www/files/"

  /** The part of the request path after "/api/file/" is a safe file name:
      it contains neither ".." nor a backslash. */
  predicate SafeName(name: string)
  {
    FindFirst(name, "..").None? && '\\' !in name
  }

  /** `mapToFilePath`: "" unless the path starts with "/api/file/" and the
      rest is a safe name; then that name under "www/files/". */
  function MapToFilePath(httpPath: string): (r: string)
    ensures r != [] <==> FilePrefix <= httpPath && SafeName(httpPath[|FilePrefix|..])
    ensures r != [] ==> r == FileRoot + httpPath[|FilePrefix|..]
  {
    if !(FilePrefix <= httpPath) then ""
    else
      var name := httpPath[|FilePrefix|..];
      if FindFirst(name, "..").Some? || '\\' in name then ""
      else FileRoot + name
  }

  lemma NoDotsInRoot()
    ensures FindFirst(FileRoot, "..").None?
  {
    forall j: nat ensures !OccursAt(FileRoot, "..", j) {
      if j + 2 <= |FileRoot| {
        assert FileRoot[j..j + 2][0] == FileRoot[j];
        assert FileRoot[j] != '.';
      }
    }
  }

  /** A mapped path never contains "..", nor a backslash: it cannot climb
      out of www/files. */
  lemma MappedPathIsConfined(httpPath: string)
    requires MapToFilePath(httpPath) != []
    ensures FindFirst(MapToFilePath(httpPath), "..").None?
    ensures '\\' !in MapToFilePath(httpPath)
    ensures FileRoot <= MapToFilePath(httpPath)
  {
    var name := httpPath[|FilePrefix|..];
    NoDotsInRoot();
    FindFirstAfterSeam(FileRoot, name, "..");
  }
}
