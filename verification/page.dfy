/** The compiler page: one immutable state record and the pure transitions
    its event handlers perform. The validation status is driven only by the
    editor's verdicts; language switches and Clear return it to Idle.

    Runs on this page are simulated: Run schedules a completion that a timer
    delivers later. Scheduled completions are kept in `pending`, oldest first,
    and `TimerFires` delivers the oldest one. */
module Page {
  import opened Text
  import opened Languages
  import opened Editor
  import opened Actions

  datatype Status = Idle | Valid | Error

  datatype State = State(
    language: string,
    code: string,
    output: string,
    status: Status,
    errorMessage: Option<string>,
    showError: bool,
    isRunning: bool,
    pending: seq<string>)

  /** What the page shows before any interaction: the reset state of
      python, with nothing running or scheduled. */
  function Initial(): (s: State)
    ensures IsReset(s, "python")
    ensures s.code == Template(Python)
    ensures !BannerVisible(s) && !s.isRunning && s.pending == []
  {
    State("python", Template(Python), "", Idle, None, false, false, [])
  }

  /** The state a language switch or Clear leaves behind for `language`:
      its template (or nothing), no output, no verdict, no message, no banner. */
  predicate IsReset(s: State, language: string) {
    && s.language == language
    && s.code == TemplateOrEmpty(language)
    && s.output == ""
    && s.status == Idle
    && s.errorMessage == None
    && !s.showError
  }

  // ---------------------------------------------------------------------
  // Verdicts and the banner

  /** `handleValidationChange(isValid, error)` */
  function ApplyVerdict(s: State, isValid: bool, error: Option<string>): (t: State)
    ensures isValid ==> t.status == Valid && t.errorMessage == None && !t.showError
    ensures !isValid ==> t.status == Error && t.errorMessage == error && t.showError
    ensures t.language == s.language && t.code == s.code && t.output == s.output
    ensures t.isRunning == s.isRunning && t.pending == s.pending
  {
    if isValid then s.(status := Valid, errorMessage := None, showError := false)
    else s.(status := Error, errorMessage := error, showError := true)
  }

  /** Each verdict replaces the previous one; nothing accumulates. */
  lemma LatestVerdictWins(s: State, v1: bool, e1: Option<string>, v2: bool, e2: Option<string>)
    ensures ApplyVerdict(ApplyVerdict(s, v1, e1), v2, e2) == ApplyVerdict(s, v2, e2)
  {
  }

  /** The banner is rendered when `showError && errorMessage`: an absent and
      an empty message are both falsy. */
  function BannerVisible(s: State): (visible: bool)
    ensures visible <==> s.showError && OrEmpty(s.errorMessage) != ""
  {
    s.showError && s.errorMessage.Some? && s.errorMessage.value != ""
  }

  /** The banner's dismiss button. */
  function Dismiss(s: State): (t: State)
    ensures !BannerVisible(t)
    ensures t.status == s.status && t.errorMessage == s.errorMessage
    ensures t == s.(showError := false)
  {
    s.(showError := false)
  }

  /** After an invalid verdict the banner shows exactly when a non-empty
      message came with it; after a valid one it is hidden. */
  lemma BannerAfterVerdict(s: State, isValid: bool, error: Option<string>)
    ensures BannerVisible(ApplyVerdict(s, isValid, error))
      <==> !isValid && error.Some? && error.value != ""
  {
  }

  /** `isValid={validationStatus !== "error"}`: Idle counts as runnable. */
  function VerdictAllowsRun(s: State): (allowed: bool)
    ensures allowed <==> s.status == Idle || s.status == Valid
  {
    s.status != Error
  }

  // ---------------------------------------------------------------------
  // Language switch, Clear, generated code

  /** The effect keyed on `language`: a no-op when the language does not change. */
  function SwitchLanguage(s: State, language: string): (t: State)
    ensures language == s.language ==> t == s
    ensures language != s.language ==> IsReset(t, language)
    ensures t.isRunning == s.isRunning && t.pending == s.pending
  {
    if language == s.language then s
    else s.(language := language, code := TemplateOrEmpty(language), output := "",
            status := Idle, errorMessage := None, showError := false)
  }

  /** `handleClear` */
  function Clear(s: State): (t: State)
    ensures IsReset(t, s.language)
    ensures t.isRunning == s.isRunning && t.pending == s.pending
  {
    s.(code := TemplateOrEmpty(s.language), output := "", status := Idle,
       errorMessage := None, showError := false)
  }

  /** Clear does what switching to the current language would, had it been a change. */
  lemma SwitchIsClearOfNewLanguage(s: State, language: string)
    requires language != s.language
    ensures SwitchLanguage(s, language) == Clear(s.(language := language))
  {
  }

  /** No diagnostic survives a switch or a Clear; the verdict no longer blocks Run. */
  lemma NoStaleDiagnostic(s: State, language: string)
    requires language != s.language
    ensures !BannerVisible(SwitchLanguage(s, language)) && !BannerVisible(Clear(s))
    ensures VerdictAllowsRun(SwitchLanguage(s, language)) && VerdictAllowsRun(Clear(s))
  {
  }

  /** `handleCodeGenerated`: new code, status back to Idle, everything else kept. */
  function CodeGenerated(s: State, generated: string): (t: State)
    ensures t.code == generated && t.status == Idle
    ensures t.errorMessage == s.errorMessage && t.showError == s.showError
    ensures t.output == s.output && t.language == s.language
    ensures t.isRunning == s.isRunning && t.pending == s.pending
  {
    s.(code := generated, status := Idle)
  }

  /** Generated code does not touch the banner: a stale error message stays
      on screen beside an Idle status until the next verdict. */
  lemma GeneratedCodeKeepsBanner(s: State, generated: string)
    ensures BannerVisible(CodeGenerated(s, generated)) == BannerVisible(s)
    ensures VerdictAllowsRun(CodeGenerated(s, generated))
  {
  }

  // ---------------------------------------------------------------------
  // Editor events delivered to the page

  /** A content change: `onChange` stores the text, then the verdict (if the
      editor has a model) goes through `handleValidationChange`. */
  function EditorChanged(s: State, newValue: Option<string>, model: Option<seq<Marker>>): (t: State)
    ensures t.code == OrEmpty(newValue)
    ensures t.output == s.output && t.language == s.language
    ensures t.isRunning == s.isRunning && t.pending == s.pending
    ensures model.None? ==> t == s.(code := OrEmpty(newValue))
    ensures model.Some? && NoErrors(model.value) ==>
      t.status == Valid && t.errorMessage == None && !t.showError
    ensures model.Some? && !NoErrors(model.value) ==> t.status == Error && t.showError
    ensures model.Some? && !NoErrors(model.value) ==>
      exists k :: FirstErrorAt(model.value, k) && t.errorMessage == Some(Report(model.value[k]))
  {
    var o := OnChange(newValue, model);
    var s1 := s.(code := o.forwarded);
    match o.verdict
    case None => s1
    case Some(v) => ApplyVerdict(s1, v.isValid, v.error)
  }

  /** An Enter key-press: a swallowed Enter reports its verdict; an accepted
      one leaves the page alone (the inserted newline arrives as a change). */
  function EnterPressed(s: State, model: Option<seq<Marker>>): (t: State)
    ensures t.code == s.code && t.output == s.output && t.language == s.language
    ensures t.isRunning == s.isRunning && t.pending == s.pending
    ensures model.None? || NoErrors(model.value) ==> t == s
    ensures model.Some? && !NoErrors(model.value) ==> t.status == Error && t.showError
    ensures model.Some? && !NoErrors(model.value) ==>
      exists k :: FirstErrorAt(model.value, k) && t.errorMessage == Some(Report(model.value[k]))
  {
    match OnEnter(model)
    case InsertText(_) => s
    case Suppress(v) => ApplyVerdict(s, v.isValid, v.error)
  }

  /** Pressing Enter right after a change was validated against the same
      markers changes nothing: a blocked buffer stays blocked with the same
      message, and an accepted one is left to the editor. */
  lemma EnterAfterChangeIsStable(s: State, newValue: Option<string>, ms: seq<Marker>)
    ensures EnterPressed(EditorChanged(s, newValue, Some(ms)), Some(ms))
      == EditorChanged(s, newValue, Some(ms))
  {
    EnterAgreesWithRevalidate(ms);
  }

  // ---------------------------------------------------------------------
  // Simulated output

  /** A code pattern: substring tests combined with `||` and `&&`. */
  datatype Pattern = Has(text: string) | Either(left: Pattern, right: Pattern) | Both(left: Pattern, right: Pattern)

  predicate Matches(p: Pattern, code: string)
    decreases p
  {
    match p
    case Has(t) => Includes(code, t)
    case Either(a, b) => Matches(a, code) || Matches(b, code)
    case Both(a, b) => Matches(a, code) && Matches(b, code)
  }

  datatype Rule = Rule(when: Pattern, output: string)

  const HelloWorld := "Hello, World!"
  const Fallback := "Program executed successfully."

  /** The pattern table, in priority order. */
  const Rules: seq<Rule> := [
    Rule(Either(Has("print(\"Hello"), Has("println(")), HelloWorld),
    Rule(Has("cout <<"), HelloWorld),
    Rule(Both(Has("for"), Either(Has("range"), Has("int i"))), "0\n1\n2\n3\n4"),
    Rule(Either(Has("fibonacci"), Has("fib")), "0, 1, 1, 2, 3, 5, 8, 13, 21, 34"),
    Rule(Has("factorial"), "120")
  ]

  /** What each row of the table tests, spelled out. */
  lemma RuleConditions(code: string)
    ensures |Rules| == 5
    ensures Matches(Rules[0].when, code) <==> Includes(code, "print(\"Hello") || Includes(code, "println(")
    ensures Matches(Rules[1].when, code) <==> Includes(code, "cout <<")
    ensures Matches(Rules[2].when, code)
      <==> Includes(code, "for") && (Includes(code, "range") || Includes(code, "int i"))
    ensures Matches(Rules[3].when, code) <==> Includes(code, "fibonacci") || Includes(code, "fib")
    ensures Matches(Rules[4].when, code) <==> Includes(code, "factorial")
  {
  }

  /** Rule `k` is the first rule whose pattern matches `code`. */
  predicate FirstMatch(code: string, k: int) {
    0 <= k < |Rules| && Matches(Rules[k].when, code)
    && forall j :: 0 <= j < k ==> !Matches(Rules[j].when, code)
  }

  /** `getSimulatedOutput`: the output of the first matching rule, or the
      fallback when none matches. The language is not consulted. */
  function SimulatedOutput(language: string, code: string): (r: string)
    ensures forall k :: FirstMatch(code, k) ==> r == Rules[k].output
    ensures (forall k :: 0 <= k < |Rules| ==> !Matches(Rules[k].when, code)) ==> r == Fallback
  {
    RuleConditions(code);
    if Includes(code, "print(\"Hello") || Includes(code, "println(") then HelloWorld
    else if Includes(code, "cout <<") then HelloWorld
    else if Includes(code, "for") && (Includes(code, "range") || Includes(code, "int i")) then "0\n1\n2\n3\n4"
    else if Includes(code, "fibonacci") || Includes(code, "fib") then "0, 1, 1, 2, 3, 5, 8, 13, 21, 34"
    else if Includes(code, "factorial") then "120"
    else Fallback
  }

  /** The result is always one of the table's outputs or the fallback. */
  lemma SimulatedOutputIsFixed(language: string, code: string)
    ensures SimulatedOutput(language, code) == Fallback
      || exists k :: 0 <= k < |Rules| && SimulatedOutput(language, code) == Rules[k].output
  {
    if !FirstMatch(code, 0) && !FirstMatch(code, 1) && !FirstMatch(code, 2)
      && !FirstMatch(code, 3) && !FirstMatch(code, 4)
    {
      assert forall k :: 0 <= k < |Rules| ==> !Matches(Rules[k].when, code);
    }
  }

  /** First match wins: `cout <<` yields the greeting even when the code
      also mentions a factorial. */
  lemma CoutBeatsFactorial(language: string, code: string)
    requires Includes(code, "cout <<") && Includes(code, "factorial")
    ensures SimulatedOutput(language, code) == HelloWorld
  {
    if !Matches(Rules[0].when, code) {
      assert FirstMatch(code, 1);
    } else {
      assert FirstMatch(code, 0);
    }
  }

  // ---------------------------------------------------------------------
  // Run, timer, Stop

  const RunBanner := "Compiling and running...\n"
  const CompletedNotice := "\n\n[Process completed with exit code 0]"
  const StopNotice := "\n\n[Process terminated by user]"

  /** The lines the simulated completion opens with, naming the language
      in upper case. */
  function RunHeader(language: string): (h: string)
    ensures StartsWith(h, "[" + ToUpper(language) + " Compiler]")
  {
    var name := "[" + ToUpper(language) + " Compiler]";
    var h := name + " Compilation successful!\n\n> Running program...\n\n";
    assert h[..|name|] == name;
    h
  }

  /** The text the simulated completion writes: the header, the simulated
      program output, and the exit-code-0 notice. */
  function RunOutput(language: string, code: string): (out: string)
    ensures StartsWith(out, RunHeader(language))
    ensures |out| == |RunHeader(language)| + |SimulatedOutput(language, code)| + |CompletedNotice|
    ensures out[|RunHeader(language)|..|out| - |CompletedNotice|] == SimulatedOutput(language, code)
    ensures EndsWith(out, CompletedNotice)
    ensures !EndsWith(out, StopNotice)
  {
    var h, r := RunHeader(language), SimulatedOutput(language, code);
    var out := h + r + CompletedNotice;
    assert out[..|h|] == h;
    assert out[|h|..|out| - |CompletedNotice|] == r;
    assert out[|out| - 2] == '0';
    out
  }

  /** `handleRun`: running, a progress line, and one completion scheduled
      for the language and code of this moment. */
  function StartRun(s: State): (t: State)
    ensures t.isRunning && t.output == RunBanner
    ensures t.pending == s.pending + [RunOutput(s.language, s.code)]
    ensures t.code == s.code && t.language == s.language && t.status == s.status
    ensures t.errorMessage == s.errorMessage && t.showError == s.showError
  {
    s.(isRunning := true, output := RunBanner, pending := s.pending + [RunOutput(s.language, s.code)])
  }

  /** The oldest scheduled completion fires; with none scheduled nothing happens. */
  function TimerFires(s: State): (t: State)
    ensures s.pending == [] ==> t == s
    ensures s.pending != [] ==> t.output == s.pending[0] && !t.isRunning && t.pending == s.pending[1..]
    ensures t.code == s.code && t.language == s.language && t.status == s.status
    ensures t.errorMessage == s.errorMessage && t.showError == s.showError
  {
    if s.pending == [] then s
    else s.(output := s.pending[0], isRunning := false, pending := s.pending[1..])
  }

  function TimerFiresTimes(s: State, n: nat): State
    decreases n
  {
    if n == 0 then s else TimerFiresTimes(TimerFires(s), n - 1)
  }

  /** `handleStop` as written: it stops the spinner and appends the notice,
      but the scheduled completion stays scheduled. */
  function StopAsWritten(s: State): (t: State)
    ensures !t.isRunning && t.output == s.output + StopNotice
    ensures t.pending == s.pending
    ensures t.code == s.code && t.language == s.language && t.status == s.status
    ensures t.errorMessage == s.errorMessage && t.showError == s.showError
  {
    s.(isRunning := false, output := s.output + StopNotice)
  }

  /** A stopped run is later reported as completed: the timer overwrites the
      termination notice with the simulated success text. */
  lemma StopAsWrittenIsOverwritten(s: State)
    requires s.pending == []
    ensures TimerFires(StopAsWritten(StartRun(s))).output == RunOutput(s.language, s.code)
    ensures !EndsWith(TimerFires(StopAsWritten(StartRun(s))).output, StopNotice)
  {
  }

  /** Stop that also cancels what Run scheduled. */
  function Stop(s: State): (t: State)
    ensures !t.isRunning && EndsWith(t.output, StopNotice) && t.output == s.output + StopNotice
    ensures t.pending == []
    ensures t.code == s.code && t.language == s.language && t.status == s.status
    ensures t.errorMessage == s.errorMessage && t.showError == s.showError
  {
    s.(isRunning := false, output := s.output + StopNotice, pending := [])
  }

  /** After Stop no timer can change the page any more. */
  lemma {:induction false} StopIsFinal(s: State, n: nat)
    ensures TimerFiresTimes(Stop(s), n) == Stop(s)
    decreases n
  {
    if n > 0 {
      assert TimerFires(Stop(s)) == Stop(s);
      StopIsFinal(s, n - 1);
    }
  }

  // ---------------------------------------------------------------------
  // The buttons as the page wires them

  function RunButtonDisabled(s: State): bool {
    RunDisabled(s.code, s.isRunning, VerdictAllowsRun(s))
  }

  function StopButtonDisabled(s: State): bool {
    StopDisabled(s.isRunning)
  }

  /** An error verdict is the one verdict that disables Run. */
  lemma ErrorVerdictDisablesRun(s: State, error: Option<string>)
    ensures RunButtonDisabled(ApplyVerdict(s, false, error))
    ensures !s.isRunning && !AllSpace(s.code) ==> !RunButtonDisabled(ApplyVerdict(s, true, None))
  {
  }

  /** While a run is in progress Run is disabled and Stop enabled; after
      Stop it is the other way round unless the code is blank or in error. */
  lemma RunningTogglesButtons(s: State)
    ensures RunButtonDisabled(StartRun(s)) && !StopButtonDisabled(StartRun(s))
    ensures StopButtonDisabled(Stop(s))
    ensures s.status != Error && !AllSpace(s.code) ==> !RunButtonDisabled(Stop(s))
    ensures StopButtonDisabled(StopAsWritten(s))
    ensures s.status != Error && !AllSpace(s.code) ==> !RunButtonDisabled(StopAsWritten(s))
  {
  }

  /** After Clear in a known language the template is there to run (if
      nothing is running), copy and clear. */
  lemma ClearedCodeIsActionable(s: State)
    requires Supported(s.language)
    ensures !CopyClearDisabled(Clear(s).code)
    ensures !s.isRunning ==> !RunButtonDisabled(Clear(s))
  {
  }
}
