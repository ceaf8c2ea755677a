/** The code-execution hook: it builds the request for the remote execution
    service, turns the service's reply into the text of the output panel, and
    reports failures. The HTTP exchange itself is foreign: its outcome is an
    input (`Reply`), as are the JSON fields it carries. */
module Execution {
  import opened Text
  import opened Languages

  // ---------------------------------------------------------------------
  // Request

  /** Service language name and version for a tag. */
  datatype LangConfig = LangConfig(language: string, version: string)

  /** `languageMap`: each entry names the language by its own tag and pins a
      version. */
  function Config(l: Language): (c: LangConfig)
    ensures c.language == Tag(l) && c.version != ""
  {
    match l
    case Python => LangConfig("python", "3.10.0")
    case Java => LangConfig("java", "15.0.2")
    case Cpp => LangConfig("cpp", "10.2.0")
  }

  /** The table has one entry per language: no two languages share a
      configuration. */
  lemma ConfigDistinguishes(a: Language, b: Language)
    requires Config(a) == Config(b)
    ensures a == b
  {
  }

  /** Name of the single source file sent along. */
  function FileName(tag: string): (name: string)
    ensures tag == "java" ==> name == "Main.java"
    ensures tag == "cpp" ==> name == "main.cpp"
    ensures tag != "java" && tag != "cpp" ==> name == "main.py"
  {
    if tag == "java" then "Main.java" else "main." + (if tag == "cpp" then "cpp" else "py")
  }

  /** Different supported languages get different file names. */
  lemma FileNameDistinguishes(a: Language, b: Language)
    requires FileName(Tag(a)) == FileName(Tag(b))
    ensures a == b
  {
  }

  datatype Request = Request(language: string, version: string, fileName: string, content: string)

  datatype ExecutionResult = ExecutionResult(output: string, error: Option<string>, exitCode: int)

  const UnsupportedPrefix := "Error: Unsupported language '"

  /** The immediate answer for a tag the service table does not know: the
      tag quoted after a fixed prefix. */
  function UnsupportedResult(tag: string): (r: ExecutionResult)
    ensures r.exitCode == 1 && r.error == Some("Unsupported language")
    ensures StartsWith(r.output, UnsupportedPrefix) && EndsWith(r.output, "'")
    ensures |r.output| == |UnsupportedPrefix| + |tag| + 1
    ensures r.output[|UnsupportedPrefix|..|r.output| - 1] == tag
  {
    var out := UnsupportedPrefix + tag + "'";
    assert out[..|UnsupportedPrefix|] == UnsupportedPrefix;
    assert out[|UnsupportedPrefix|..|out| - 1] == tag;
    ExecutionResult(out, Some("Unsupported language"), 1)
  }

  /** Different unknown tags get different messages: the tag can be read back. */
  lemma UnsupportedNamesTag(a: string, b: string)
    requires UnsupportedResult(a).output == UnsupportedResult(b).output
    ensures a == b
  {
  }

  /** Either a request to send, or an answer given without any request. */
  datatype Plan = Send(request: Request) | Answer(result: ExecutionResult)

  function PlanFor(code: string, tag: string): (p: Plan)
    ensures p.Answer? <==> !Supported(tag)
    ensures p.Answer? ==> p.result == UnsupportedResult(tag)
    ensures p.Send? ==> p.request.content == code && p.request.fileName == FileName(tag)
    ensures p.Send? ==> p.request.language == tag
    ensures p.Send? ==> LangConfig(p.request.language, p.request.version) == Config(Parse(tag).value)
  {
    match Parse(tag)
    case None => Answer(UnsupportedResult(tag))
    case Some(l) =>
      var c := Config(l);
      Send(Request(c.language, c.version, FileName(tag), code))
  }

  // ---------------------------------------------------------------------
  // Reply

  /** `run` and `compile` objects of the service's JSON; absent fields are `None`. */
  datatype RunPart = RunPart(stdout: Option<string>, stderr: Option<string>, code: Option<int>)
  datatype CompilePart = CompilePart(stderr: Option<string>)
  datatype Body = Body(run: Option<RunPart>, compile: Option<CompilePart>)

  /** A thrown value: an `Error` with its message, or anything else. */
  datatype Thrown = ErrorObject(message: string) | OtherValue

  datatype Json = Parsed(body: Body) | Malformed(thrown: Thrown)

  /** Outcome of the request: a response (status, and the JSON it decodes to)
      or a rejected fetch. */
  datatype Reply = Received(ok: bool, status: int, json: Json) | Rejected(thrown: Thrown)

  /** `result.run?.stdout || ""` */
  function Stdout(b: Body): (s: string)
    ensures b.run.Some? && b.run.value.stdout.Some? ==> s == b.run.value.stdout.value
    ensures b.run.None? || b.run.value.stdout.None? ==> s == ""
  {
    if b.run.Some? then OrEmpty(b.run.value.stdout) else ""
  }

  /** `result.run?.stderr || ""` */
  function Stderr(b: Body): (s: string)
    ensures b.run.Some? && b.run.value.stderr.Some? ==> s == b.run.value.stderr.value
    ensures b.run.None? || b.run.value.stderr.None? ==> s == ""
  {
    if b.run.Some? then OrEmpty(b.run.value.stderr) else ""
  }

  /** `result.compile?.stderr || ""` */
  function CompileError(b: Body): (s: string)
    ensures b.compile.Some? && b.compile.value.stderr.Some? ==> s == b.compile.value.stderr.value
    ensures b.compile.None? || b.compile.value.stderr.None? ==> s == ""
  {
    if b.compile.Some? then OrEmpty(b.compile.value.stderr) else ""
  }

  /** `result.run?.code ?? 0`: zero only stands in for a missing code. */
  function ExitCode(b: Body): (c: int)
    ensures b.run.Some? && b.run.value.code.Some? ==> c == b.run.value.code.value
    ensures b.run.None? || b.run.value.code.None? ==> c == 0
  {
    if b.run.Some? && b.run.value.code.Some? then b.run.value.code.value else 0
  }

  // ---------------------------------------------------------------------
  // Output text

  const CompileHeader := "\U{274C} Compilation Error:\n"
  const RuntimeHeader := "\U{26A0}\U{FE0F} Runtime Error:\n"
  const PartialHeader := "\U{1F4E4} Output:\n"
  const OkHeader := "\U{2705} Output:\n"
  const NoOutput := "\U{2705} Program executed successfully (no output)"
  const ExitLabel := "\n\n[Exit code: "

  function ExitSuffix(exitCode: int): string {
    ExitLabel + IntToString(exitCode) + "]"
  }

  /** Which of the five report shapes a run gets, by priority. */
  datatype Kind = CompileFailed | RuntimeFailedWithOutput | RuntimeFailed | Printed | Silent

  function KindOf(stdout: string, stderr: string, compileError: string): Kind {
    if compileError != "" then CompileFailed
    else if stderr != "" then (if stdout != "" then RuntimeFailedWithOutput else RuntimeFailed)
    else if stdout != "" then Printed
    else Silent
  }

  /** The report before the exit-code line; it opens with the header of the
      case that applies. */
  function Report(stdout: string, stderr: string, compileError: string): (text: string)
    ensures StartsWith(text, Opening(KindOf(stdout, stderr, compileError)))
  {
    if compileError != "" then
      StartsWithConcat(CompileHeader, compileError);
      CompileHeader + compileError
    else if stderr != "" then
      var runtime := RuntimeHeader + stderr;
      if stdout != "" then
        var text := PartialHeader + stdout + "\n\n" + runtime;
        assert text == PartialHeader + (stdout + "\n\n" + runtime);
        StartsWithConcat(PartialHeader, stdout + "\n\n" + runtime);
        text
      else
        StartsWithConcat(RuntimeHeader, stderr);
        runtime
    else if stdout != "" then
      StartsWithConcat(OkHeader, stdout);
      OkHeader + stdout
    else
      StartsWithConcat(NoOutput, "");
      NoOutput
  }

  /** The full text for a completed run: the report, then the exit code. */
  function FormatOutput(stdout: string, stderr: string, compileError: string, exitCode: int): (out: string)
    ensures EndsWith(out, ExitSuffix(exitCode))
  {
    Report(stdout, stderr, compileError) + ExitSuffix(exitCode)
  }

  /** The opening of each kind of report. */
  function Opening(k: Kind): string {
    match k
    case CompileFailed => CompileHeader
    case RuntimeFailedWithOutput => PartialHeader
    case RuntimeFailed => RuntimeHeader
    case Printed => OkHeader
    case Silent => NoOutput
  }

  /** Reads the kind of report off the start of an output text. */
  function KindOfText(s: string): Option<Kind> {
    if StartsWith(s, CompileHeader) then Some(CompileFailed)
    else if StartsWith(s, PartialHeader) then Some(RuntimeFailedWithOutput)
    else if StartsWith(s, RuntimeHeader) then Some(RuntimeFailed)
    else if StartsWith(s, OkHeader) then Some(Printed)
    else if StartsWith(s, NoOutput) then Some(Silent)
    else None
  }

  /** The openings differ in their first or third character. */
  lemma OpeningsDiffer()
    ensures CompileHeader[0] == '\U{274C}' && PartialHeader[0] == '\U{1F4E4}'
    ensures RuntimeHeader[0] == '\U{26A0}' && OkHeader[0] == '\U{2705}' && NoOutput[0] == '\U{2705}'
    ensures OkHeader[2] == 'O' && NoOutput[2] == 'P'
  {
  }

  /** A text that opens like a kind of report is read as that kind. */
  lemma KindOfTextOpening(k: Kind, s: string)
    requires StartsWith(s, Opening(k))
    ensures KindOfText(s) == Some(k)
  {
    OpeningsDiffer();
    assert s[0] == Opening(k)[0];
    if k == Silent {
      assert s[2] == 'P';
    }
  }

  /** The output panel's first line tells which case applied, with compile
      errors before runtime errors before output before "no output". */
  lemma KindIsVisible(stdout: string, stderr: string, compileError: string, exitCode: int)
    ensures KindOfText(FormatOutput(stdout, stderr, compileError, exitCode))
      == Some(KindOf(stdout, stderr, compileError))
  {
    var k := KindOf(stdout, stderr, compileError);
    var r := Report(stdout, stderr, compileError);
    var out := FormatOutput(stdout, stderr, compileError, exitCode);
    assert out[..|Opening(k)|] == r[..|Opening(k)|];
    KindOfTextOpening(k, out);
  }

  /** A compile error decides the text whatever the run printed. */
  lemma CompileErrorDominates(o1: string, e1: string, o2: string, e2: string, compileError: string, exitCode: int)
    requires compileError != ""
    ensures FormatOutput(o1, e1, compileError, exitCode) == FormatOutput(o2, e2, compileError, exitCode)
    ensures StartsWith(FormatOutput(o1, e1, compileError, exitCode), CompileHeader + compileError)
    ensures |FormatOutput(o1, e1, compileError, exitCode)|
      == |CompileHeader| + |compileError| + |ExitSuffix(exitCode)|
  {
    assert FormatOutput(o1, e1, compileError, exitCode) == CompileHeader + compileError + ExitSuffix(exitCode);
    StartsWithConcat(CompileHeader + compileError, ExitSuffix(exitCode));
  }

  /** Without any error the text shows exactly what the run printed, or the
      "no output" line when it printed nothing. */
  lemma CleanRunShowsStdout(stdout: string, exitCode: int)
    ensures var out := FormatOutput(stdout, "", "", exitCode);
      stdout != "" ==>
        (StartsWith(out, OkHeader)
         && |out| == |OkHeader| + |stdout| + |ExitSuffix(exitCode)|
         && out[|OkHeader|..|out| - |ExitSuffix(exitCode)|] == stdout)
    ensures stdout == "" ==> FormatOutput(stdout, "", "", exitCode) == NoOutput + ExitSuffix(exitCode)
  {
    if stdout != "" {
      var out := FormatOutput(stdout, "", "", exitCode);
      assert out == OkHeader + stdout + ExitSuffix(exitCode);
      assert out[..|OkHeader|] == OkHeader;
      assert out[|OkHeader|..|out| - |ExitSuffix(exitCode)|] == stdout;
    }
  }

  /** A runtime error keeps both streams: printed output first, then stderr,
      and nothing but the exit-code line after them. */
  lemma RuntimeErrorKeepsBoth(stdout: string, stderr: string, exitCode: int)
    requires stderr != ""
    ensures stdout != "" ==> StartsWith(FormatOutput(stdout, stderr, "", exitCode), PartialHeader + stdout + "\n\n" + RuntimeHeader + stderr)
    ensures stdout != "" ==>
      |FormatOutput(stdout, stderr, "", exitCode)|
        == |PartialHeader + stdout + "\n\n" + RuntimeHeader + stderr| + |ExitSuffix(exitCode)|
    ensures stdout == "" ==> StartsWith(FormatOutput(stdout, stderr, "", exitCode), RuntimeHeader + stderr)
    ensures stdout == "" ==>
      |FormatOutput(stdout, stderr, "", exitCode)| == |RuntimeHeader| + |stderr| + |ExitSuffix(exitCode)|
  {
    if stdout != "" {
      var block := PartialHeader + stdout + "\n\n" + RuntimeHeader + stderr;
      assert FormatOutput(stdout, stderr, "", exitCode) == block + ExitSuffix(exitCode);
      StartsWithConcat(block, ExitSuffix(exitCode));
    } else {
      var block := RuntimeHeader + stderr;
      assert FormatOutput(stdout, stderr, "", exitCode) == block + ExitSuffix(exitCode);
      StartsWithConcat(block, ExitSuffix(exitCode));
    }
  }

  /** Number of digits at the end of `s`. */
  function TrailingDigits(s: string): (n: nat)
    ensures n <= |s|
    ensures forall i :: |s| - n <= i < |s| ==> IsDigit(s[i])
    ensures n < |s| ==> !IsDigit(s[|s| - n - 1])
    decreases |s|
  {
    if |s| > 0 && IsDigit(s[|s| - 1]) then
      var front := s[..|s| - 1];
      var n := TrailingDigits(front);
      assert forall i :: |s| - 1 - n <= i < |s| - 1 ==> s[i] == front[i];
      n + 1
    else 0
  }

  lemma {:induction false} TrailingDigitsOfNumeral(front: string, d: string)
    requires AllDigits(d)
    requires |front| > 0 && !IsDigit(front[|front| - 1])
    ensures TrailingDigits(front + d) == |d|
    decreases |d|
  {
    if |d| > 0 {
      assert (front + d)[..|front + d| - 1] == front + d[..|d| - 1];
      TrailingDigitsOfNumeral(front, d[..|d| - 1]);
    } else {
      assert front + d == front;
    }
  }

  /** Reads the exit code back from the end of an output text. */
  function ExitCodeOfText(s: string): Option<int> {
    if |s| == 0 || s[|s| - 1] != ']' then None
    else ParseInt(NumeralAtEnd(s[..|s| - 1]))
  }

  /** The sign and digits `ExitCodeOfText` cuts off the end of `u`. */
  function NumeralAtEnd(u: string): (num: string)
    ensures |num| <= |u|
  {
    var n := TrailingDigits(u);
    var m := if n < |u| && u[|u| - n - 1] == '-' then n + 1 else n;
    u[|u| - m..]
  }

  lemma NumeralAtEndNonNegative(front: string, c: nat)
    requires |front| > 0 && front[|front| - 1] == ' '
    ensures NumeralAtEnd(front + IntToString(c)) == IntToString(c)
  {
    var num := IntToString(c);
    var u := front + num;
    TrailingDigitsOfNumeral(front, num);
    assert u[|u| - |num| - 1] == ' ';
    assert u[|u| - |num|..] == num;
  }

  lemma NumeralAtEndNegative(front: string, c: int)
    requires |front| > 0 && front[|front| - 1] == ' '
    requires c < 0
    ensures NumeralAtEnd(front + IntToString(c)) == IntToString(c)
  {
    var num := IntToString(c);
    var d := num[1..];
    var front' := front + "-";
    var u := front + num;
    assert u == front' + d;
    TrailingDigitsOfNumeral(front', d);
    assert u[|u| - |d| - 1] == '-';
    assert u[|u| - (|d| + 1)..] == num;
  }

  /** Whatever precedes it, the exit-code line reads back as its code. */
  lemma ExitCodeOfSuffix(body: string, exitCode: int)
    ensures ExitCodeOfText(body + ExitSuffix(exitCode)) == Some(exitCode)
  {
    var front := body + ExitLabel;
    var num := IntToString(exitCode);
    var s := body + ExitSuffix(exitCode);
    assert s == (front + num) + "]";
    assert s[..|s| - 1] == front + num;
    assert front[|front| - 1] == ' ';
    if exitCode < 0 {
      NumeralAtEndNegative(front, exitCode);
    } else {
      NumeralAtEndNonNegative(front, exitCode);
    }
    ParseIntToString(exitCode);
  }

  /** The exit code shown at the end of the text is the run's exit code. */
  lemma ExitCodeIsVisible(stdout: string, stderr: string, compileError: string, exitCode: int)
    ensures ExitCodeOfText(FormatOutput(stdout, stderr, compileError, exitCode)) == Some(exitCode)
  {
    ExitCodeOfSuffix(Report(stdout, stderr, compileError), exitCode);
  }

  /** Runs that end with different exit codes never produce the same text. */
  lemma ExitCodeDistinguishes(o1: string, e1: string, c1: string, x: int, o2: string, e2: string, c2: string, y: int)
    requires FormatOutput(o1, e1, c1, x) == FormatOutput(o2, e2, c2, y)
    ensures x == y
  {
    ExitCodeIsVisible(o1, e1, c1, x);
    ExitCodeIsVisible(o2, e2, c2, y);
  }

  // ---------------------------------------------------------------------
  // Completion and failure

  const FailureHeader := "\U{274C} Execution Failed:\n"
  const FailureFooter := "\n\nPlease check your internet connection and try again."

  /** `error instanceof Error ? error.message : "Unknown error"` */
  function FailureMessage(t: Thrown): (m: string)
    ensures t.ErrorObject? ==> m == t.message
    ensures t.OtherValue? ==> m == "Unknown error"
  {
    match t
    case ErrorObject(m) => m
    case OtherValue => "Unknown error"
  }

  /** The answer when anything in the exchange throws. */
  function FailureResult(t: Thrown): (r: ExecutionResult)
    ensures r.exitCode == 1 && r.error == Some(FailureMessage(t))
    ensures |r.output| == |FailureHeader| + |FailureMessage(t)| + |FailureFooter|
    ensures StartsWith(r.output, FailureHeader) && EndsWith(r.output, FailureFooter)
    ensures r.output[|FailureHeader|..|r.output| - |FailureFooter|] == FailureMessage(t)
  {
    var out := FailureHeader + FailureMessage(t) + FailureFooter;
    assert out[..|FailureHeader|] == FailureHeader;
    ExecutionResult(out, Some(FailureMessage(t)), 1)
  }

  /** The answer for a decoded reply. */
  function SuccessResult(b: Body): (r: ExecutionResult)
    ensures r.error == None && r.exitCode == ExitCode(b)
    ensures r.output == FormatOutput(Stdout(b), Stderr(b), CompileError(b), ExitCode(b))
    ensures KindOfText(r.output) == Some(KindOf(Stdout(b), Stderr(b), CompileError(b)))
    ensures ExitCodeOfText(r.output) == Some(ExitCode(b))
  {
    KindIsVisible(Stdout(b), Stderr(b), CompileError(b), ExitCode(b));
    ExitCodeIsVisible(Stdout(b), Stderr(b), CompileError(b), ExitCode(b));
    ExecutionResult(FormatOutput(Stdout(b), Stderr(b), CompileError(b), ExitCode(b)), None, ExitCode(b))
  }

  /** Turning the reply into a result: a non-OK status throws "API error: N". */
  function Complete(reply: Reply): (r: ExecutionResult)
    ensures reply.Rejected? ==> r == FailureResult(reply.thrown)
    ensures reply.Received? && !reply.ok ==>
      r == FailureResult(ErrorObject("API error: " + IntToString(reply.status)))
    ensures reply.Received? && !reply.ok ==>
      r.exitCode == 1 && r.error == Some("API error: " + IntToString(reply.status))
    ensures reply.Received? && reply.ok && reply.json.Malformed? ==> r == FailureResult(reply.json.thrown)
    ensures reply.Received? && reply.ok && reply.json.Parsed? ==> r == SuccessResult(reply.json.body)
  {
    match reply
    case Rejected(t) => FailureResult(t)
    case Received(ok, status, json) =>
      if !ok then FailureResult(ErrorObject("API error: " + IntToString(status)))
      else match json
        case Malformed(t) => FailureResult(t)
        case Parsed(b) => SuccessResult(b)
  }

  /** Every failure yields exit code 1, and only failures carry an error. */
  lemma ErrorIffFailure(reply: Reply)
    ensures Complete(reply).error.Some?
      <==> reply.Rejected? || !reply.ok || reply.json.Malformed?
    ensures Complete(reply).error.Some? ==> Complete(reply).exitCode == 1
  {
  }

  // ---------------------------------------------------------------------
  // The hook's own state
  //
  // `executeCode` is split at its `await`: `Started` is the state while the
  // request is in flight, and finishing applies the reply. Between the two
  // the user may press Stop.

  datatype Hook = Hook(isRunning: bool, output: string)

  const ProgressText := "\U{23F3} Compiling and executing...\n"
  const TerminatedNotice := "\n\n\U{26D4} Process terminated by user"

  /** The hook once `executeCode` is waiting for the service: running with
      the progress line for a known tag, untouched for an unknown one. */
  function Started(h: Hook, tag: string): (t: Hook)
    ensures !Supported(tag) ==> t == h
    ensures Supported(tag) ==> t.isRunning && t.output == ProgressText
  {
    if Supported(tag) then Hook(true, ProgressText) else h
  }

  /** The reply's text as the source applies it: the output is replaced and
      running cleared whatever happened meanwhile. */
  function FinishAsWritten(h: Hook, reply: Reply): (t: Hook)
    ensures !t.isRunning && t.output == Complete(reply).output
  {
    Hook(false, Complete(reply).output)
  }

  /** Every text `Complete` produces ends in ']' (the exit-code line) or '.'
      (the failure footer). */
  lemma CompleteLastChar(reply: Reply)
    ensures var out := Complete(reply).output;
      |out| > 0 && (out[|out| - 1] == ']' || out[|out| - 1] == '.')
  {
    var out := Complete(reply).output;
    if Complete(reply).error.Some? {
      assert EndsWith(out, FailureFooter);
      assert out[|out| - 1] == FailureFooter[|FailureFooter| - 1];
    } else {
      var b := reply.json.body;
      var x := ExitSuffix(ExitCode(b));
      assert EndsWith(out, x);
      assert out[|out| - 1] == x[|x| - 1];
    }
  }

  /** Stop pressed while the request is in flight is undone by the reply:
      the termination notice is replaced and no longer ends the text. */
  lemma StopBeforeReplyIsOverwritten(h: Hook, tag: string, reply: Reply)
    requires Supported(tag)
    ensures FinishAsWritten(StopExecution(Started(h, tag)), reply).output == Complete(reply).output
    ensures !EndsWith(FinishAsWritten(StopExecution(Started(h, tag)), reply).output, TerminatedNotice)
  {
    CompleteLastChar(reply);
  }

  /** The reply as it should be applied: only to a request still running, so
      a stopped request's reply is discarded. */
  function Finish(h: Hook, reply: Reply): (t: Hook)
    ensures h.isRunning ==> !t.isRunning && t.output == Complete(reply).output
    ensures !h.isRunning ==> t == h
  {
    if h.isRunning then FinishAsWritten(h, reply) else h
  }

  /** With the corrected finish, Stop's notice survives the reply, and a
      request nobody stopped still shows its result. */
  lemma StopDiscardsReply(h: Hook, tag: string, reply: Reply)
    requires Supported(tag)
    ensures Finish(StopExecution(Started(h, tag)), reply) == StopExecution(Started(h, tag))
    ensures EndsWith(Finish(StopExecution(Started(h, tag)), reply).output, TerminatedNotice)
    ensures Finish(Started(h, tag), reply) == FinishAsWritten(Started(h, tag), reply)
  {
  }

  datatype Executed = Executed(hook: Hook, result: ExecutionResult)

  /** `executeCode` run to its end with no Stop in between: the result and
      the hook state once it has returned. */
  function Execute(h: Hook, code: string, tag: string, reply: Reply): (e: Executed)
    ensures !Supported(tag) ==> e.hook == h && e.result == UnsupportedResult(tag)
    ensures Supported(tag) ==> !e.hook.isRunning && e.hook.output == e.result.output
    ensures Supported(tag) ==> e.result == Complete(reply)
  {
    match PlanFor(code, tag)
    case Answer(r) => Executed(h, r)
    case Send(_) => Executed(Finish(Started(h, tag), reply), Complete(reply))
  }

  /** An unsupported language is answered without consulting any reply. */
  lemma UnsupportedSendsNothing(h: Hook, code: string, tag: string, r1: Reply, r2: Reply)
    requires !Supported(tag)
    ensures Execute(h, code, tag, r1) == Execute(h, code, tag, r2)
  {
  }

  /** `stopExecution` */
  function StopExecution(h: Hook): (t: Hook)
    ensures !t.isRunning && EndsWith(t.output, TerminatedNotice)
    ensures |t.output| == |h.output| + |TerminatedNotice|
    ensures t.output[..|h.output|] == h.output
  {
    var out := h.output + TerminatedNotice;
    assert out[..|h.output|] == h.output;
    Hook(false, out)
  }

  /** `clearOutput` */
  function ClearOutput(h: Hook): (t: Hook)
    ensures t.output == "" && t.isRunning == h.isRunning
  {
    h.(output := "")
  }

  /** Clearing twice is clearing once, and a Stop after a Clear shows only
      the termination notice. */
  lemma ClearOutputSettles(h: Hook)
    ensures ClearOutput(ClearOutput(h)) == ClearOutput(h)
    ensures StopExecution(ClearOutput(h)).output == TerminatedNotice
  {
  }
}
