/** The action bar: when the Run, Stop, Copy and Clear buttons are disabled.
    These predicates are the only place where the validation verdict gates
    execution. `!code.trim()` is true exactly for all-white-space code. */
module Actions {
  import opened Text

  /** `!code.trim()`: nothing but white space. */
  predicate Blank(code: string) {
    Trim(code) == ""
  }

  lemma BlankIffAllSpace(code: string)
    ensures Blank(code) <==> AllSpace(code)
  {
    TrimEmptyIffAllSpace(code);
  }

  /** `isRunning || !isValid || !code.trim()` */
  function RunDisabled(code: string, isRunning: bool, isValid: bool): (disabled: bool)
    ensures disabled <==> isRunning || !isValid || AllSpace(code)
  {
    BlankIffAllSpace(code);
    isRunning || !isValid || Blank(code)
  }

  /** `!isRunning`: Stop is offered only while something runs, and then Run
      is not, whatever the code and the verdict. */
  function StopDisabled(isRunning: bool): (disabled: bool)
    ensures disabled <==> !isRunning
    ensures !disabled ==> forall code, isValid :: RunDisabled(code, isRunning, isValid)
  {
    !isRunning
  }

  /** `!code.trim()`: the one guard the Copy and the Clear button share. */
  function CopyClearDisabled(code: string): (disabled: bool)
    ensures disabled <==> AllSpace(code)
  {
    BlankIffAllSpace(code);
    Blank(code)
  }

  /** Run is clickable exactly when nothing runs, the verdict is not an
      error, and the code has at least one non-white-space character. */
  lemma RunEnabledIff(code: string, isRunning: bool, isValid: bool)
    ensures !RunDisabled(code, isRunning, isValid)
      <==> !isRunning && isValid && exists i :: 0 <= i < |code| && !IsSpace(code[i])
  {
  }

  /** Run and Stop are never enabled together. */
  lemma RunStopExclusive(code: string, isRunning: bool, isValid: bool)
    ensures RunDisabled(code, isRunning, isValid) || StopDisabled(isRunning)
  {
  }

  /** Whenever Run is enabled, so are Copy and Clear. */
  lemma RunEnabledEnablesCopyAndClear(code: string, isRunning: bool, isValid: bool)
    requires !RunDisabled(code, isRunning, isValid)
    ensures !CopyClearDisabled(code)
  {
  }
}
