/** components/ScenarioEditor.tsx: a local copy of the scenario that the user
    edits, reset whenever the `initialScenario` prop changes. */
module ScenarioEditor {
  import opened Text

  /** The confirm button is enabled when not loading and the text is not blank. */
  predicate ConfirmEnabled(isLoading: bool, scenario: string) {
    !isLoading && Trim(scenario) != ""
  }

  /** Blank means whitespace only: confirm is enabled exactly when not loading
      and some character of the text is not whitespace. */
  lemma {:induction false} ConfirmEnabledIff(isLoading: bool, scenario: string)
    ensures ConfirmEnabled(isLoading, scenario) <==> !isLoading && exists i :: 0 <= i < |scenario| && !IsJsWhitespace(scenario[i])
  {
    TrimEmptyIff(scenario);
  }

  /** The back button and the textarea are enabled when not loading. */
  predicate BackEnabled(isLoading: bool) { !isLoading }
  predicate TextareaEnabled(isLoading: bool) { !isLoading }

  class Editor {
    var initialScenario: string
    var isLoading: bool
    var scenario: string

    /** `useState(initialScenario)` */
    constructor (initialScenario: string, isLoading: bool)
      ensures this.initialScenario == initialScenario && this.isLoading == isLoading
      ensures scenario == initialScenario
    {
      this.initialScenario := initialScenario;
      this.isLoading := isLoading;
      scenario := initialScenario;
    }

    /** A render with new props; the effect resets the buffer only when
        `initialScenario` changed, so edits survive other re-renders. */
    method ReceiveProps(initialScenario: string, isLoading: bool)
      modifies this
      ensures this.initialScenario == initialScenario && this.isLoading == isLoading
      ensures scenario == if initialScenario != old(this.initialScenario) then initialScenario else old(scenario)
    {
      if initialScenario != this.initialScenario {
        scenario := initialScenario;
      }
      this.initialScenario := initialScenario;
      this.isLoading := isLoading;
    }

    /** The textarea's `onChange`; a disabled textarea fires none. */
    method Edit(text: string)
      requires TextareaEnabled(isLoading)
      modifies this
      ensures scenario == text
      ensures initialScenario == old(initialScenario) && isLoading == old(isLoading)
    {
      scenario := text;
    }

    /** `handleConfirm`: the buffer as it stands, edited or not, which is never
        blank when the button is enabled. */
    method Confirm() returns (confirmed: string)
      requires ConfirmEnabled(isLoading, scenario)
      ensures confirmed == scenario
      ensures !AllWhitespace(confirmed)
    {
      TrimEmptyIff(scenario);
      confirmed := scenario;
    }
  }
}
