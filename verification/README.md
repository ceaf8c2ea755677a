# talk-code-stop, modelled in Dafny

talk-code-stop is a browser code editor for Python, Java and C++. Its "code stopper"
stops Enter from inserting a newline while the editor reports a syntax error. It
shows that error in a status line and a dismissible banner, and it lets a run start
only when the verdict is not an error. This project models the decision logic behind
those features:

- **Editor** (`editor.dfy`, from `CodeEditor.tsx`): the language templates and Monaco ids,
  the displayed value, the Enter-key gate and the re-validation after each change.
  The gate and the re-validation read the editor's markers. Markers are an input
  (`seq<Marker>`), and `None` means the editor has no model.
- **Page** (`page.dfy`, from `Index.tsx`): the page state record {language, code, output,
  status, errorMessage, showError, isRunning}. Its transitions are pure functions:
  verdict, language switch, Clear, generated code, banner dismiss, simulated run,
  timer and Stop. The page also holds the first-match pattern table of the simulated
  program output.
- **Execution** (`execution.dfy`, from `useCodeExecution.ts`): the request sent to the
  remote execution service, and the formatting of its reply into output text.
  This covers the failure path, the unsupported-language answer, and the hook's
  `stopExecution` and `clearOutput`.
- **Actions** (`actions.dfy`, from `ActionBar.tsx`): when the Run, Stop, Copy and Clear
  buttons are disabled.
- `text.dfy` holds the JavaScript string built-ins the code relies on (`includes`, `trim`,
  `toUpperCase`, `${n}`), each paired with a reader or a characterisation. `languages.dfy`
  holds the three language tags that key every per-language table.

Three facts about the code shape the model:

- There is no hand-written syntax scanner. `CodeEditor.tsx` takes its diagnostics
  from Monaco's own markers.
- The page (`Index.tsx`) never calls the execution hook. It simulates a run with a timer.
- Choosing the language that is already selected changes nothing, because the reset
  runs in an effect keyed on `language`.

## Model

| member | source | states |
|---|---|---|
| Page.Initial | src/pages/Index.tsx:11-18 | The page starts in the reset state of python (its template, no output, Idle, no message, banner hidden), with nothing running or scheduled |
| Page.ApplyVerdict | src/pages/Index.tsx:29-39 | A valid verdict sets Valid, clears the message and hides the banner; an invalid one sets Error, stores the message and shows the banner; code, output, language and running state are untouched |
| Page.LatestVerdictWins | src/pages/Index.tsx:29-39 | A verdict replaces the previous one entirely: applying two in a row equals applying only the second |
| Page.SwitchLanguage | src/pages/Index.tsx:20-27 | Switching to a different language loads its template (empty for an unknown tag) and clears output, verdict, message and banner; re-selecting the current language changes nothing |
| Page.NoStaleDiagnostic | src/pages/Index.tsx:21-27 | After a switch or a Clear no banner is visible and the verdict does not block Run |
| Page.Clear | src/pages/Index.tsx:63-69 | Clear leaves the page in the reset state of its current language |
| Page.SwitchIsClearOfNewLanguage | src/pages/Index.tsx:63-69 | A switch to another language equals Clear performed as if that language were already selected |
| Page.CodeGenerated | src/pages/Index.tsx:41-44 | Generated code replaces the code and sets Idle; message, banner flag, output and language are kept |
| Page.GeneratedCodeKeepsBanner | src/pages/Index.tsx:41-44 | Generated code leaves the banner as it was (a stale message can stay beside an Idle status) and never blocks Run |
| Page.Dismiss | src/pages/Index.tsx:113-118 | Dismiss hides the banner and changes only showError |
| Page.BannerVisible | src/pages/Index.tsx:113 | The banner is rendered iff showError is set and the message is present and non-empty |
| Page.BannerAfterVerdict | src/pages/Index.tsx:113-118 | After a verdict the banner is visible iff the verdict is invalid and carries a non-empty message |
| Page.EditorChanged | src/pages/Index.tsx:104-109 | A change stores the forwarded text and keeps output, language and running state; with a model and no error marker it sets Valid with no message and hides the banner, and with one it sets Error, shows the banner and stores the first error's "Line N: msg" |
| Page.EnterPressed | src/pages/Index.tsx:104-109 | Enter never touches code, output, language or running state; it changes nothing without an error marker, and otherwise sets Error, shows the banner and stores the first error's "Line N: msg" |
| Page.EnterAfterChangeIsStable | src/components/compiler/CodeEditor.tsx:34-71 | Enter right after a change validated against the same markers changes nothing: a blocked buffer stays blocked with the same message |
| Page.SimulatedOutput | src/pages/Index.tsx:141-159 | The output is that of the first rule in the pattern table whose pattern matches, or the fallback when none matches |
| Page.SimulatedOutputIsFixed | src/pages/Index.tsx:141-159 | The output is always one of the table's fixed strings or the fallback |
| Page.CoutBeatsFactorial | src/pages/Index.tsx:146-157 | First match wins: code with both `cout <<` and `factorial` yields "Hello, World!" |
| Page.RunHeader | src/pages/Index.tsx:52 | The completion text opens with "[" and the upper-cased language, then " Compiler]" |
| Page.RunOutput | src/pages/Index.tsx:52 | The completion text is the "[LANG Compiler]" header with the upper-cased language, then exactly the simulated program output, then the exit-code-0 notice; it never ends with the termination notice |
| Page.StartRun | src/pages/Index.tsx:46-56 | Run sets running, shows the progress line and schedules one completion built from the current language and code; code, language, status, message and banner are kept |
| Page.TimerFires | src/pages/Index.tsx:51-55 | The oldest scheduled completion replaces the output and clears running; code, language, status, message and banner are kept; with nothing scheduled nothing changes |
| Page.StopAsWritten | src/pages/Index.tsx:58-61 | Stop clears running and appends the termination notice; scheduled completions, code, language, status, message and banner are kept |
| Page.StopAsWrittenIsOverwritten | src/pages/Index.tsx:46-61 | Run, Stop and then the timer leave the simulated success text, without the termination notice |
| Page.Stop | src/pages/Index.tsx:58-61 | Stop clears running, appends the termination notice and cancels scheduled completions; code, language, status, message and banner are kept |
| Page.StopIsFinal | src/pages/Index.tsx:58-61 | After Stop, any number of timer events leave the page unchanged |
| Page.VerdictAllowsRun | src/pages/Index.tsx:127 | The verdict allows a run for Idle and Valid status, that is, for everything but Error |
| Page.ErrorVerdictDisablesRun | src/pages/Index.tsx:127 | An error verdict disables Run; a valid verdict enables it when nothing runs and the code is not blank |
| Page.RunningTogglesButtons | src/components/compiler/ActionBar.tsx:35-44 | During a run, Run is disabled and Stop enabled; after Stop (as written or corrected), Stop is disabled and Run is enabled unless the code is blank or in error |
| Page.ClearedCodeIsActionable | src/pages/Index.tsx:63-69 | After Clear in a known language, Copy and Clear are enabled, and Run is enabled when nothing runs |
| Editor.Template | src/components/compiler/CodeEditor.tsx:12-16 | Each language's starting template is not blank |
| Editor.TemplateOrEmpty | src/pages/Index.tsx:22 | A known tag yields its template; the result is empty exactly for unknown tags |
| Editor.MonacoLanguage | src/components/compiler/CodeEditor.tsx:79-86 | python, java and cpp map to themselves and every other tag to "plaintext" |
| Editor.MonacoLanguageIdempotent | src/components/compiler/CodeEditor.tsx:79-86 | Mapping a Monaco id again changes nothing, and every result is a supported tag or "plaintext" |
| Editor.DisplayedValue | src/components/compiler/CodeEditor.tsx:93 | A non-empty value is shown as is; an empty one is replaced by the template or by "" |
| Editor.DisplayedValueEmpty | src/components/compiler/CodeEditor.tsx:93 | The editor shows "" iff the value is empty and the tag unknown; for a known tag an empty value never shows blank text |
| Editor.ErrorMarkers | src/components/compiler/CodeEditor.tsx:38 | The filter keeps exactly the markers of severity at least 8; it is empty iff none exist, and its head is the first such marker in list order |
| Editor.ErrorMarkersAppend | src/components/compiler/CodeEditor.tsx:64 | Filtering a concatenation is the concatenation of the filtered parts |
| Editor.Report | src/components/compiler/CodeEditor.tsx:43 | The report starts with "Line ", ends with the marker's message, and has room for exactly the line number and ": " between them |
| Editor.ParseReportOfReport | src/components/compiler/CodeEditor.tsx:43 | "Line N: msg" reads back as exactly the marker's line number and message |
| Editor.ReportInjective | src/components/compiler/CodeEditor.tsx:68 | Two reports are equal only if their line numbers and messages are equal |
| Editor.Revalidate | src/components/compiler/CodeEditor.tsx:63-71 | The verdict is valid iff there is no error marker; an invalid one carries the first error's "Line N: msg" |
| Editor.OnEnter | src/components/compiler/CodeEditor.tsx:34-49 | Enter is swallowed iff a model exists with an error marker, and then reports the first error's "Line N: msg"; otherwise it inserts exactly "\n" and notifies nobody |
| Editor.OnChange | src/components/compiler/CodeEditor.tsx:52-77 | The new value (or "" when absent) is forwarded; a verdict is produced iff there is a model, valid iff no error marker |
| Editor.EnterAgreesWithRevalidate | src/components/compiler/CodeEditor.tsx:36-71 | For the same markers Enter is accepted iff re-validation says valid, and a swallowed Enter reports the same verdict |
| Editor.WarningsNeverBlock | src/components/compiler/CodeEditor.tsx:38-64 | Markers below severity 8, wherever they are inserted, change neither the Enter outcome nor the verdict |
| Execution.Config | src/hooks/useCodeExecution.ts:10-14 | Each language's service entry names it by its own tag and carries a non-empty version |
| Execution.ConfigDistinguishes | src/hooks/useCodeExecution.ts:10-14 | No two languages share a service configuration |
| Execution.FileName | src/hooks/useCodeExecution.ts:45 | "Main.java" for java, "main.cpp" for cpp, "main.py" for anything else |
| Execution.FileNameDistinguishes | src/hooks/useCodeExecution.ts:45 | Different supported languages get different file names |
| Execution.UnsupportedResult | src/hooks/useCodeExecution.ts:21-29 | The unsupported-language answer has exit code 1, error "Unsupported language", and text "Error: Unsupported language '" followed by the tag and a closing quote |
| Execution.UnsupportedNamesTag | src/hooks/useCodeExecution.ts:25 | Different unknown tags give different messages |
| Execution.PlanFor | src/hooks/useCodeExecution.ts:20-50 | An unknown tag is answered without a request; a known one sends the code under its file name with that language's service name and version |
| Execution.UnsupportedSendsNothing | src/hooks/useCodeExecution.ts:21-29 | For an unknown tag the outcome does not depend on any reply |
| Execution.Stdout | src/hooks/useCodeExecution.ts:58 | The run's stdout when present, otherwise "" |
| Execution.Stderr | src/hooks/useCodeExecution.ts:59 | The run's stderr when present, otherwise "" |
| Execution.CompileError | src/hooks/useCodeExecution.ts:60 | The compile step's stderr when present, otherwise "" |
| Execution.ExitCode | src/hooks/useCodeExecution.ts:61 | The run's code is used when present (0 stays 0); 0 stands in only when it is missing |
| Execution.FormatOutput | src/hooks/useCodeExecution.ts:63-78 | Every completed-run text ends with "\n\n[Exit code: N]" |
| Execution.Report | src/hooks/useCodeExecution.ts:63-76 | The report opens with the header of the case that applies, chosen by priority |
| Execution.CleanRunShowsStdout | src/hooks/useCodeExecution.ts:72-75 | Without errors, the text between the output header and the exit-code line is exactly stdout; with nothing printed the text is the "no output" line |
| Execution.KindIsVisible | src/hooks/useCodeExecution.ts:65-76 | The opening of the text identifies the case by priority: compile error, then runtime error (with or without output), then output, then "no output" |
| Execution.CompileErrorDominates | src/hooks/useCodeExecution.ts:65-66 | With a non-empty compile error the text is exactly the compilation header and that error followed by the exit-code line, whatever stdout and stderr hold |
| Execution.RuntimeErrorKeepsBoth | src/hooks/useCodeExecution.ts:67-71 | With stderr and no compile error the text is exactly the runtime block, preceded by the output block and a blank line when stdout is non-empty, followed by the exit-code line |
| Execution.ExitCodeOfSuffix | src/hooks/useCodeExecution.ts:78 | The exit-code line reads back as its code, whatever text precedes it |
| Execution.ExitCodeIsVisible | src/hooks/useCodeExecution.ts:78 | The exit code can be read back from the end of every completed-run text |
| Execution.ExitCodeDistinguishes | src/hooks/useCodeExecution.ts:78 | Runs with different exit codes never produce the same text |
| Execution.FailureMessage | src/hooks/useCodeExecution.ts:86 | A thrown Error contributes its message; any other thrown value gives "Unknown error" |
| Execution.FailureResult | src/hooks/useCodeExecution.ts:85-93 | A failure yields exit code 1, the error message as error, and a text that embeds the message between the fixed header and footer |
| Execution.SuccessResult | src/hooks/useCodeExecution.ts:58-84 | A decoded reply yields no error, the run's exit code, and the formatter's text for its stdout, stderr, compile error and exit code, whose case and exit code read back |
| Execution.Complete | src/hooks/useCodeExecution.ts:52-93 | A rejected fetch and malformed JSON fail with the thrown message; a non-OK status fails with "API error: N"; a decoded reply yields the formatted success result |
| Execution.ErrorIffFailure | src/hooks/useCodeExecution.ts:52-93 | A result carries an error iff the fetch was rejected, the status was not OK or the JSON was malformed, and every such result has exit code 1 |
| Execution.Started | src/hooks/useCodeExecution.ts:21-33 | While a known tag's request is in flight the hook is running and shows the progress line; an unknown tag leaves the hook untouched |
| Execution.FinishAsWritten | src/hooks/useCodeExecution.ts:80-95 | The reply replaces the output with the result's text and clears running, whatever the hook's state |
| Execution.StopBeforeReplyIsOverwritten | src/hooks/useCodeExecution.ts:80-102 | Stop while the request is in flight is undone by the reply: the output becomes the result's text, which never ends with the termination notice |
| Execution.Finish | src/hooks/useCodeExecution.ts:80-102 | The reply is applied to a running request only; a stopped one keeps its state |
| Execution.StopDiscardsReply | src/hooks/useCodeExecution.ts:99-102 | With the corrected finish, the termination notice survives the reply, and an unstopped request still shows its result |
| Execution.Execute | src/hooks/useCodeExecution.ts:20-97 | An unknown tag leaves the hook state untouched; a known one, with no Stop in between, ends with running cleared and the output panel showing the result's text |
| Execution.StopExecution | src/hooks/useCodeExecution.ts:99-102 | Stop clears running and keeps the previous output followed by the termination notice |
| Execution.ClearOutput | src/hooks/useCodeExecution.ts:104-106 | Clear empties the output and keeps the running flag |
| Execution.ClearOutputSettles | src/hooks/useCodeExecution.ts:99-106 | Clearing twice equals clearing once, and Stop after Clear shows only the termination notice |
| Actions.RunDisabled | src/components/compiler/ActionBar.tsx:35 | Run is disabled iff something runs, the verdict is an error, or the code is all white space |
| Actions.RunEnabledIff | src/components/compiler/ActionBar.tsx:35 | Run is enabled iff nothing runs, the verdict is not an error and some character is not white space |
| Actions.StopDisabled | src/components/compiler/ActionBar.tsx:44 | Stop is disabled iff nothing runs; when it is enabled, Run is disabled for every code and verdict |
| Actions.RunStopExclusive | src/components/compiler/ActionBar.tsx:35-44 | Run and Stop are never both enabled |
| Actions.CopyClearDisabled | src/components/compiler/ActionBar.tsx:59-69 | Copy and Clear are disabled iff the code is all white space |
| Actions.RunEnabledEnablesCopyAndClear | src/components/compiler/ActionBar.tsx:35-69 | Whenever Run is enabled, Copy and Clear are too |
| Actions.BlankIffAllSpace | src/components/compiler/ActionBar.tsx:35 | `!code.trim()` holds iff every character is white space |
| Text.TrimEmptyIffAllSpace | src/components/compiler/ActionBar.tsx:59 | Trimming yields "" iff every character is one of the white-space code points `trim` removes |
| Text.Includes | src/pages/Index.tsx:143-157 | `includes` is true iff the pattern occurs at some index of the code |
| Text.ToUpper | src/pages/Index.tsx:52 | Upper-casing keeps the length and maps each character on its own |
| Text.ParseNatToString | src/components/compiler/CodeEditor.tsx:43 | The decimal rendering of a line number reads back as that number |
| Text.IntToStringInjective | src/hooks/useCodeExecution.ts:78 | Distinct integers render to distinct decimal text |

## Left out

- Monaco itself: how markers are computed, `getModelMarkers`, and the `trigger` call that types the newline. Markers are an input, and the newline is the `InsertText("\n")` outcome. Where the cursor puts the newline is the editor's business. The page sees the newline only as the change event that follows.
- The 300 ms delay before re-validation. `Editor.OnChange` takes the markers as they are when the delay ends. The model check happens before the delay and the marker read after it; both are folded into one `Option`.
- Page.NoStaleDiagnostic: holds because verdicts are applied at once. In the code (CodeEditor.tsx:62-72) a re-validation scheduled before a language switch, Clear or generated code can land after it and set the status and banner again; that interleaving is not modelled, and neither is its effect on `Page.CodeGenerated`'s Idle status.
- React scheduling. Each handler is applied as one synchronous transition. The 1500 ms run timer is the `pending` queue, delivered oldest first by `Page.TimerFires`. All runs use the same delay, so the queue order is the firing order.
- Clear and the language switch do not cancel a pending simulated completion either. The model keeps that as written: a completion scheduled before them still overwrites the output.
- `isGenerating`, speech capture (`SpeechToCode.tsx`) and the code-generation function (`supabase/functions/generate-code/index.ts`). These are browser speech APIs, HTTP and an AI gateway. Their only effect on the core is `Page.CodeGenerated`.
- The HTTP exchange with the execution service: URL, headers and JSON encoding of the request. Its outcome enters as `Execution.Reply`. A JSON field that is present but not a string (or, for the code, not an integer) is not modelled.
- Execution.Json: a reply whose JSON decodes to `null` (or another non-object) cannot be written as `Parsed`. In the code `result.run?.stdout` then throws a TypeError, which the catch at useCodeExecution.ts:85 turns into a failure result; `Malformed` with an `ErrorObject` stands for that case.
- Rendering components (CompilerHeader, StatusIndicator, OutputPanel, ErrorBanner, LanguageSelector), the clipboard write and the toasts in ActionBar.
- Text.ToUpper: maps only ASCII letters, because the language tags passed to `toUpperCase` are ASCII. Other Unicode case mappings are not modelled.
- Text.IntToString: renders integers in plain decimal. JavaScript's exponent notation for numbers of 1e21 and above, and non-integer numbers, are not modelled.
- Record lookups treat only the three tags as keys. A JavaScript object also answers inherited keys such as "constructor"; the language selector never produces those.
- Strings are sequences of Unicode code points rather than UTF-16 code units. This changes no comparison the code makes.

## Findings

| source | as written | input that shows it | evidently intended | confidence | as-written member | corrected member |
|---|---|---|---|---|---|---|
| src/hooks/useCodeExecution.ts:99-102 | `stopExecution` clears the running flag and appends "⛔ Process terminated by user". It does not abort the request, so the reply later replaces the output (line 80 or 88) and clears running again (line 95). | A known language, Stop while the request is in flight, then the reply arrives. The output is the result's text, without the termination notice. | Stop discards the pending reply, so the termination notice stays. | low (the page does not call this hook); not executed | Execution.FinishAsWritten, Execution.StopBeforeReplyIsOverwritten | Execution.Finish, Execution.StopDiscardsReply |
| src/pages/Index.tsx:58-61 | `handleStop` clears the running flag and appends "[Process terminated by user]". It does not cancel the 1500 ms timer that `handleRun` started. | Run, then Stop before 1500 ms pass. The timer then replaces the output with the "[Process completed with exit code 0]" text. | Stop cancels the pending completion, so the termination notice stays. | medium; not executed | Page.StopAsWritten, Page.StopAsWrittenIsOverwritten | Page.Stop, Page.StopIsFinal |
