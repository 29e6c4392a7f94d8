/** The relay server's decision logic (server/server.js): validating an
    inbound message, choosing the worker script by type, buffering the
    worker's standard output, and the reply decided when the worker closes.
    Process spawning and pipes are outside the model: the worker's exit code
    and output chunks are inputs, and so is the JSON parser, as a function
    that returns None where `JSON.parse` throws. */
module Relay {
  import opened Wrappers

  /** The `type` and `data` members of a parsed client message; None stands
      for a missing, `null` or `undefined` member. */
  datatype Inbound = Inbound(kind: Option<string>, data: Option<string>)

  /** The three worker programs. */
  datatype Worker = FaceDetector | EmotionsDetector | FaceDistanceEstimator

  /** The script file launched for each worker. */
  function ScriptFile(w: Worker): string {
    match w
    case FaceDetector => "face_detector.py"
    case EmotionsDetector => "emotions_detector.py"
    case FaceDistanceEstimator => "face_distance_estimator.py"
  }

  /** The message type that selects each worker. */
  function KindOf(w: Worker): string {
    match w
    case FaceDetector => "heatmap"
    case EmotionsDetector => "pie"
    case FaceDistanceEstimator => "line"
  }

  /** The `switch (type)`: a fixed table, no worker for any other type.
      It inverts KindOf: a type selects only the worker it names, and every
      worker is selected by its own type. */
  function ScriptFor(kind: string): (r: Option<Worker>)
    ensures r.Some? ==> KindOf(r.value) == kind
    ensures forall w :: KindOf(w) == kind ==> r == Some(w)
  {
    if kind == "heatmap" then Some(FaceDetector)
    else if kind == "pie" then Some(EmotionsDetector)
    else if kind == "line" then Some(FaceDistanceEstimator)
    else None
  }

  /** The dispatch table and KindOf are inverse: each worker is chosen by
      exactly one type, and a type chooses a worker only if it is that
      worker's type. */
  lemma DispatchTable(kind: string, w: Worker)
    ensures ScriptFor(kind) == Some(w) <==> kind == KindOf(w)
    ensures ScriptFor(kind).None? <==> kind !in {"heatmap", "pie", "line"}
  {
  }

  /** JavaScript truthiness of a string member: present and not "". */
  predicate Truthy(v: Option<string>) {
    v.Some? && v.value != ""
  }

  /** A worker launch: which program, and what is written to its stdin. */
  datatype Spawn = Spawn(worker: Worker, stdin: string)

  /** Validation and dispatch: a message with a falsy `type` or `data`, or
      with an unknown type, launches nothing; otherwise the type's worker is
      launched with the `data` string as its whole input. */
  function Route(msg: Inbound): (r: Option<Spawn>)
    ensures r.None? <==> !Truthy(msg.kind) || !Truthy(msg.data) || ScriptFor(msg.kind.value).None?
    ensures r.Some? ==> KindOf(r.value.worker) == msg.kind.value && Some(r.value.stdin) == msg.data
  {
    if !Truthy(msg.kind) || !Truthy(msg.data) then None
    else
      match ScriptFor(msg.kind.value)
      case None => None
      case Some(w) => Some(Spawn(w, msg.data.value))
  }

  /* ---------------------------------------------------------------- */
  /* Buffering the worker's output                                     */
  /* ---------------------------------------------------------------- */

  /** The chunks in arrival order, joined. */
  function Concat(chunks: seq<string>): string
    decreases |chunks|
  {
    if chunks == [] then "" else chunks[0] + Concat(chunks[1..])
  }

  lemma {:induction false} ConcatAppend(a: seq<string>, b: seq<string>)
    ensures Concat(a + b) == Concat(a) + Concat(b)
    decreases |a|
  {
    if a == [] {
      assert a + b == b;
    } else {
      assert (a + b)[1..] == a[1..] + b;
      ConcatAppend(a[1..], b);
    }
  }

  /** `stdoutData += data.toString()` for every chunk, starting from "": the
      buffer is the in-order concatenation of the chunks. */
  method BufferStdout(chunks: seq<string>) returns (stdoutData: string)
    ensures stdoutData == Concat(chunks)
  {
    stdoutData := "";
    var i := 0;
    while i < |chunks|
      invariant 0 <= i <= |chunks|
      invariant stdoutData == Concat(chunks[..i])
    {
      ConcatAppend(chunks[..i], [chunks[i]]);
      assert chunks[..i + 1] == chunks[..i] + [chunks[i]];
      assert Concat([chunks[i]]) == chunks[i] + Concat([]);
      stdoutData := stdoutData + chunks[i];
      i := i + 1;
    }
    assert chunks[..i] == chunks;
  }

  /* ---------------------------------------------------------------- */
  /* String.prototype.trim                                             */
  /* ---------------------------------------------------------------- */

  /** The characters `trim` removes: the ECMAScript WhiteSpace and
      LineTerminator code points. */
  predicate IsWhitespace(c: char) {
    var n := c as int;
    n == 0x09 || n == 0x0A || n == 0x0B || n == 0x0C || n == 0x0D || n == 0x20 ||
    n == 0xA0 || n == 0x1680 || (0x2000 <= n <= 0x200A) || n == 0x2028 || n == 0x2029 ||
    n == 0x202F || n == 0x205F || n == 0x3000 || n == 0xFEFF
  }

  function TrimStart(s: string): string
    decreases |s|
  {
    if s != [] && IsWhitespace(s[0]) then TrimStart(s[1..]) else s
  }

  function TrimEnd(s: string): (r: string)
    ensures |r| <= |s| && r == s[..|r|]
    ensures r != [] ==> !IsWhitespace(r[|r| - 1])
    decreases |s|
  {
    if s != [] && IsWhitespace(s[|s| - 1]) then TrimEnd(s[..|s| - 1]) else s
  }

  /** `String.prototype.trim`: `!stdoutData.trim()` holds exactly when the
      output is whitespace only (the empty output included), and a
      non-empty result neither starts nor ends with whitespace. */
  function Trim(s: string): (r: string)
    ensures r == "" <==> Blank(s)
    ensures r != [] ==> !IsWhitespace(r[0]) && !IsWhitespace(r[|r| - 1])
  {
    TrimStartEmptyIff(s);
    TrimEndEmptyIff(TrimStart(s));
    TrimEnd(TrimStart(s))
  }

  /** Every character of `s` is whitespace. */
  ghost predicate Blank(s: string) {
    forall i :: 0 <= i < |s| ==> IsWhitespace(s[i])
  }

  lemma {:induction false} TrimStartEmptyIff(s: string)
    ensures TrimStart(s) == "" <==> Blank(s)
    ensures TrimStart(s) != "" ==> !IsWhitespace(TrimStart(s)[0])
    decreases |s|
  {
    if s != [] && IsWhitespace(s[0]) {
      TrimStartEmptyIff(s[1..]);
      assert Blank(s) <==> Blank(s[1..]) by {
        if Blank(s[1..]) {
          forall i | 0 <= i < |s| ensures IsWhitespace(s[i]) {
            if i > 0 {
              assert s[i] == s[1..][i - 1];
            }
          }
        }
      }
    }
  }

  lemma {:induction false} TrimEndEmptyIff(s: string)
    requires s == [] || !IsWhitespace(s[0])
    ensures TrimEnd(s) == "" <==> s == ""
    decreases |s|
  {
    if s != [] && IsWhitespace(s[|s| - 1]) {
      assert |s| > 1;
      TrimEndEmptyIff(s[..|s| - 1]);
    }
  }

  /* ---------------------------------------------------------------- */
  /* The close handler                                                 */
  /* ---------------------------------------------------------------- */

  /** A message sent back to the client. */
  datatype Outbound<J> = Reply(kind: string, data: J) | Failure(error: string)

  const ProcessingFailed: string := "Processing failed"
  const ParseFailed: string := "Failed to parse result"

  /** The `close` handler: exit `code` (None when the worker was killed by a
      signal, which node reports as `null`), the buffered output, and the
      parser. It sends at most one message. */
  function OnClose<J>(kind: string, code: Option<int>, stdoutData: string, parse: string -> Option<J>)
    : (r: Option<Outbound<J>>)
    ensures code != Some(0) ==> r == Some(Failure(ProcessingFailed))
    ensures r.None? <==> code == Some(0) && Blank(stdoutData)
    ensures r.Some? && r.value.Reply? <==>
              code == Some(0) && !Blank(stdoutData) && parse(stdoutData).Some?
    ensures r.Some? && r.value.Reply? ==> r.value == Reply(kind, parse(stdoutData).value)
    ensures code == Some(0) && !Blank(stdoutData) && parse(stdoutData).None? ==>
              r == Some(Failure(ParseFailed))
  {
    if code != Some(0) then Some(Failure(ProcessingFailed))
    else if Trim(stdoutData) == "" then None
    else
      match parse(stdoutData)
      case Some(json) => Some(Reply(kind, json))
      case None => Some(Failure(ParseFailed))
  }

  /* ---------------------------------------------------------------- */
  /* One inbound message, end to end                                   */
  /* ---------------------------------------------------------------- */

  /** What the launched worker did: its exit code and its stdout chunks. */
  datatype WorkerRun = WorkerRun(code: Option<int>, stdoutChunks: seq<string>)

  /** What handling one message did: the launch, if any, and the messages
      sent back on the connection. */
  datatype Handled<J> = Handled(spawned: Option<Spawn>, sent: seq<Outbound<J>>)

  /** The `message` handler for one inbound message, given how its worker
      run goes. */
  function HandleMessage<J>(msg: Inbound, run: WorkerRun, parse: string -> Option<J>): (h: Handled<J>)
    ensures h.spawned == Route(msg)
    ensures |h.sent| <= 1
    ensures h.spawned.None? ==> h.sent == []
    ensures !Truthy(msg.kind) || !Truthy(msg.data) ==> h == Handled(None, [])
    ensures h.spawned.Some? && run.code != Some(0) ==> h.sent == [Failure(ProcessingFailed)]
    ensures h.spawned.Some? && run.code == Some(0) && Blank(Concat(run.stdoutChunks)) ==> h.sent == []
    ensures forall o :: o in h.sent && o.Reply? ==>
              Some(o.kind) == msg.kind && parse(Concat(run.stdoutChunks)) == Some(o.data)
  {
    match Route(msg)
    case None => Handled(None, [])
    case Some(spawn) =>
      match OnClose(msg.kind.value, run.code, Concat(run.stdoutChunks), parse)
      case None => Handled(Some(spawn), [])
      case Some(out) => Handled(Some(spawn), [out])
  }

  /** A well-formed message of a known type with a worker that exits 0 and
      prints parseable JSON gets exactly one reply, echoing its type. */
  lemma SuccessfulRunReplies<J>(msg: Inbound, run: WorkerRun, parse: string -> Option<J>)
    requires Truthy(msg.kind) && Truthy(msg.data) && ScriptFor(msg.kind.value).Some?
    requires run.code == Some(0) && !Blank(Concat(run.stdoutChunks))
    requires parse(Concat(run.stdoutChunks)).Some?
    ensures HandleMessage(msg, run, parse).sent
         == [Reply(msg.kind.value, parse(Concat(run.stdoutChunks)).value)]
  {
  }
}
