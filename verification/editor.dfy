/** The editor component: starting templates, the Monaco language id, the
    displayed value, and the "code stopper" that reads the editor's own error
    markers to veto the Enter key and to re-validate after every change.

    How Monaco computes markers is foreign; the markers the editor holds at the
    moment of the event are an input here, `None` standing for "no model". */
module Editor {
  import opened Text
  import opened Languages

  // ---------------------------------------------------------------------
  // Templates and language ids

  /** Lines joined with "\n", the way a template literal spans lines. */
  function JoinLines(ls: seq<string>): string
    decreases |ls|
  {
    if |ls| == 0 then ""
    else if |ls| == 1 then ls[0]
    else ls[0] + "\n" + JoinLines(ls[1..])
  }

  /** The comment line each template opens with. */
  function Header(l: Language): (h: string)
    ensures |h| > 0 && !IsSpace(h[0])
  {
    match l
    case Python => "# Python Code"
    case Java => "// Java Code"
    case Cpp => "// C++ Code"
  }

  /** The program lines below the header. */
  function ProgramLines(l: Language): seq<string> {
    match l
    case Python => [
      "def main():",
      "    print(\"Hello, World!\")",
      "",
      "if __name__ == \"__main__\":",
      "    main()"]
    case Java => [
      "public class Main {",
      "    public static void main(String[] args) {",
      "        System.out.println(\"Hello, World!\");",
      "    }",
      "}"]
    case Cpp => [
      "#include <iostream>",
      "using namespace std;",
      "",
      "int main() {",
      "    cout << \"Hello, World!\" << endl;",
      "    return 0;",
      "}"]
  }

  /** A joined text starts with its first line. */
  lemma JoinLinesOpens(ls: seq<string>)
    requires |ls| > 0 && |ls[0]| > 0
    ensures |JoinLines(ls)| > 0 && JoinLines(ls)[0] == ls[0][0]
  {
  }

  /** The canned starting program of each language. */
  function Template(l: Language): (t: string)
    ensures !AllSpace(t)
  {
    var ls := [Header(l)] + ProgramLines(l);
    JoinLinesOpens(ls);
    JoinLines(ls)
  }

  /** `languageTemplates[tag] || ""`: the template of a known tag, else empty. */
  function TemplateOrEmpty(tag: string): (t: string)
    ensures Supported(tag) ==> t == Template(Parse(tag).value)
    ensures t == "" <==> !Supported(tag)
  {
    match Parse(tag)
    case Some(l) => Template(l)
    case None => ""
  }

  /** The Monaco language id for a tag; unknown tags get "plaintext". */
  function MonacoLanguage(tag: string): (id: string)
    ensures Supported(tag) ==> id == tag
    ensures !Supported(tag) ==> id == "plaintext"
  {
    match Parse(tag)
    case Some(l) => Tag(l)
    case None => "plaintext"
  }

  /** Mapping a Monaco id again changes nothing. */
  lemma MonacoLanguageIdempotent(tag: string)
    ensures MonacoLanguage(MonacoLanguage(tag)) == MonacoLanguage(tag)
    ensures Supported(MonacoLanguage(tag)) || MonacoLanguage(tag) == "plaintext"
  {
  }

  /** `value || languageTemplates[language] || ""`: what the editor shows. */
  function DisplayedValue(value: string, tag: string): (shown: string)
    ensures value != "" ==> shown == value
    ensures value == "" ==> shown == TemplateOrEmpty(tag)
  {
    if value != "" then value else TemplateOrEmpty(tag)
  }

  /** The editor shows nothing only when the value is empty and the tag unknown;
      for a known tag it never shows blank text in place of an empty value. */
  lemma DisplayedValueEmpty(value: string, tag: string)
    ensures DisplayedValue(value, tag) == "" <==> value == "" && !Supported(tag)
    ensures value == "" && Supported(tag) ==> !AllSpace(DisplayedValue(value, tag))
  {
  }

  // ---------------------------------------------------------------------
  // Markers and verdicts

  datatype Marker = Marker(severity: int, line: nat, message: string)

  /** Monaco's `MarkerSeverity.Error`. */
  const ErrorSeverity: int := 8

  predicate IsError(m: Marker) {
    m.severity >= ErrorSeverity
  }

  predicate NoErrors(ms: seq<Marker>) {
    forall i :: 0 <= i < |ms| ==> !IsError(ms[i])
  }

  /** `ms[k]` is the first error-severity marker in list order. */
  predicate FirstErrorAt(ms: seq<Marker>, k: int) {
    0 <= k < |ms| && IsError(ms[k]) && forall j :: 0 <= j < k ==> !IsError(ms[j])
  }

  /** `markers.filter((m) => m.severity >= 8)`, keeping list order. */
  function ErrorMarkers(ms: seq<Marker>): (es: seq<Marker>)
    ensures forall m :: m in es <==> m in ms && IsError(m)
    ensures |es| == 0 <==> NoErrors(ms)
    decreases |ms|
  {
    if |ms| == 0 then []
    else
      var rest := ErrorMarkers(ms[1..]);
      assert ms == [ms[0]] + ms[1..];
      if IsError(ms[0]) then [ms[0]] + rest
      else
        assert NoErrors(ms[1..]) ==> NoErrors(ms) by {
          if NoErrors(ms[1..]) {
            forall i | 0 <= i < |ms| ensures !IsError(ms[i]) {
              if i > 0 {
                assert ms[i] == ms[1..][i - 1];
              }
            }
          }
        }
        rest
  }

  /** The filter's head is the first error-severity marker in list order. */
  lemma {:induction false} ErrorMarkersHead(ms: seq<Marker>)
    requires !NoErrors(ms)
    ensures exists k :: FirstErrorAt(ms, k) && ErrorMarkers(ms)[0] == ms[k]
    decreases |ms|
  {
    if IsError(ms[0]) {
      assert ErrorMarkers(ms) == [ms[0]] + ErrorMarkers(ms[1..]);
      assert FirstErrorAt(ms, 0);
    } else {
      assert ErrorMarkers(ms) == ErrorMarkers(ms[1..]);
      assert !NoErrors(ms[1..]) by {
        var i :| 0 <= i < |ms| && IsError(ms[i]);
        assert ms[1..][i - 1] == ms[i];
      }
      ErrorMarkersHead(ms[1..]);
      var k :| FirstErrorAt(ms[1..], k) && ErrorMarkers(ms[1..])[0] == ms[1..][k];
      assert FirstErrorAt(ms, k + 1);
    }
  }

  /** Filtering distributes over concatenation. */
  lemma {:induction false} ErrorMarkersAppend(a: seq<Marker>, b: seq<Marker>)
    ensures ErrorMarkers(a + b) == ErrorMarkers(a) + ErrorMarkers(b)
    decreases |a|
  {
    if |a| > 0 {
      assert (a + b)[1..] == a[1..] + b;
      ErrorMarkersAppend(a[1..], b);
    } else {
      assert a + b == b;
    }
  }

  /** The message the code stopper reports for a marker: "Line N: msg", the
      message itself closing the text. */
  function Report(m: Marker): (r: string)
    ensures StartsWith(r, "Line ") && EndsWith(r, m.message)
    ensures |r| == 5 + |NatToString(m.line)| + 2 + |m.message|
  {
    "Line " + NatToString(m.line) + ": " + m.message
  }

  /** Reads a report back into its line number and message. */
  function ParseReport(s: string): Option<(nat, string)> {
    if |s| >= 5 && s[..5] == "Line " then
      var body := s[5..];
      var n := LeadingDigits(body);
      if n > 0 && |body| >= n + 2 && body[n..n + 2] == ": " then
        Some((ParseNat(body[..n]), body[n + 2..]))
      else None
    else None
  }

  /** A report names its marker's line and message unambiguously. */
  lemma ParseReportOfReport(m: Marker)
    ensures ParseReport(Report(m)) == Some((m.line, m.message))
  {
    var d := NatToString(m.line);
    var s := Report(m);
    assert s[..5] == "Line ";
    var body := s[5..];
    assert body == d + (": " + m.message);
    LeadingDigitsOfNumeral(d, ": " + m.message);
    assert body[..|d|] == d;
    assert body[|d|..|d| + 2] == ": ";
    assert body[|d| + 2..] == m.message;
    ParseNatToString(m.line);
  }

  /** Distinct line numbers or messages never produce the same report. */
  lemma ReportInjective(m1: Marker, m2: Marker)
    requires Report(m1) == Report(m2)
    ensures m1.line == m2.line && m1.message == m2.message
  {
    ParseReportOfReport(m1);
    ParseReportOfReport(m2);
  }

  /** What `onValidationChange` receives: validity and an optional message. */
  datatype Verdict = Verdict(isValid: bool, error: Option<string>)

  /** The re-validation that follows a change: invalid with the first error's
      report when there are error markers, valid with no message otherwise. */
  function Revalidate(ms: seq<Marker>): (v: Verdict)
    ensures v.isValid <==> NoErrors(ms)
    ensures v.isValid ==> v.error == None
    ensures !v.isValid ==> exists k :: FirstErrorAt(ms, k) && v.error == Some(Report(ms[k]))
  {
    var errors := ErrorMarkers(ms);
    if |errors| > 0 then
      ErrorMarkersHead(ms);
      Verdict(false, Some(Report(errors[0])))
    else Verdict(true, None)
  }

  // ---------------------------------------------------------------------
  // The Enter command and the change handler

  /** Effect of the Enter command: the editor types a newline and nobody is
      notified, or the keystroke is swallowed and the verdict is reported. */
  datatype EnterOutcome = InsertText(text: string) | Suppress(notice: Verdict)

  function OnEnter(model: Option<seq<Marker>>): (o: EnterOutcome)
    ensures o.Suppress? <==> model.Some? && !NoErrors(model.value)
    ensures o.InsertText? ==> o.text == "\n"
    ensures o.Suppress? ==> !o.notice.isValid
    ensures o.Suppress? ==>
      exists k :: FirstErrorAt(model.value, k) && o.notice.error == Some(Report(model.value[k]))
  {
    match model
    case None => InsertText("\n")
    case Some(ms) =>
      var errors := ErrorMarkers(ms);
      if |errors| > 0 then
        ErrorMarkersHead(ms);
        Suppress(Verdict(false, Some(Report(errors[0]))))
      else InsertText("\n")
  }

  /** Effect of a content change: the text forwarded to `onChange`, and the
      verdict sent to `onValidationChange` when the editor has a model. */
  datatype ChangeOutcome = ChangeOutcome(forwarded: string, verdict: Option<Verdict>)

  function OnChange(newValue: Option<string>, model: Option<seq<Marker>>): (o: ChangeOutcome)
    ensures o.forwarded == OrEmpty(newValue)
    ensures o.verdict.Some? <==> model.Some?
    ensures model.Some? ==> (o.verdict.value.isValid <==> NoErrors(model.value))
  {
    match model
    case None => ChangeOutcome(OrEmpty(newValue), None)
    case Some(ms) => ChangeOutcome(OrEmpty(newValue), Some(Revalidate(ms)))
  }

  /** For the same markers the Enter command and the change handler agree:
      Enter is swallowed exactly when re-validation says invalid, and it then
      reports the very same message. */
  lemma EnterAgreesWithRevalidate(ms: seq<Marker>)
    ensures OnEnter(Some(ms)).InsertText? <==> Revalidate(ms).isValid
    ensures OnEnter(Some(ms)).Suppress? ==> OnEnter(Some(ms)).notice == Revalidate(ms)
  {
  }

  /** Markers below error severity are invisible to both the Enter command
      and re-validation, wherever they sit in the list. */
  lemma WarningsNeverBlock(a: seq<Marker>, w: seq<Marker>, b: seq<Marker>)
    requires NoErrors(w)
    ensures Revalidate(a + w + b) == Revalidate(a + b)
    ensures OnEnter(Some(a + w + b)) == OnEnter(Some(a + b))
  {
    var ea, ew, eb := ErrorMarkers(a), ErrorMarkers(w), ErrorMarkers(b);
    assert ew == [];
    calc {
      ErrorMarkers(a + w + b);
      { ErrorMarkersAppend(a + w, b); }
      ErrorMarkers(a + w) + eb;
      { ErrorMarkersAppend(a, w); }
      ea + ew + eb;
      { assert ea + ew == ea; }
      ea + eb;
      { ErrorMarkersAppend(a, b); }
      ErrorMarkers(a + b);
    }
  }
}
