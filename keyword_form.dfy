/** components/KeywordForm.tsx: the file-name check, single-field edits of the
    keywords record, and the suggestion buttons. The keywords record belongs to
    the wizard; the form's edits are what it hands to `onKeywordsChange`. */
module KeywordForm {
  import opened Outcomes
  import opened Text
  import opened Types
  import GeminiService

  /** The class of INVALID_FILENAME_CHARS: \ / : * ? " < > | */
  const INVALID_FILENAME_CHARS: set<char> := {'\\', '/', ':', '*', '?', '\"', '<', '>', '|'}
  const INVALID_FILENAME_ERROR := "Caratteri non validi: / \\ : * ? \" < > |"

  /** The value the `nameError` effect computes for a name. */
  function NameErrorFor(name: string): (e: Option<string>)
    ensures e.Some? <==> exists i :: 0 <= i < |name| && name[i] in INVALID_FILENAME_CHARS
    ensures e.Some? ==> e.value == INVALID_FILENAME_ERROR
  {
    if ContainsAny(name, INVALID_FILENAME_CHARS) then Some(INVALID_FILENAME_ERROR) else None
  }

  /** The two inputs, by their `name` attribute. */
  datatype Field = Passion | Name

  /** `{ ...keywords, [name]: value }` */
  function WithField(keywords: Keywords, field: Field, value: string): (k: Keywords)
    ensures field == Passion ==> k.passion == value && k.name == keywords.name
    ensures field == Name ==> k.name == value && k.passion == keywords.passion
  {
    match field
    case Passion => keywords.(passion := value)
    case Name => keywords.(name := value)
  }

  /** Editing a field and then editing it back restores the record. */
  lemma {:induction false} WithFieldUndo(keywords: Keywords, field: Field, value: string)
    ensures var old_value := if field == Passion then keywords.passion else keywords.name;
            WithField(WithField(keywords, field, value), field, old_value) == keywords
  {
  }

  /** The suggestion area: a spinner while a suggestion is pending, otherwise
      the two buttons, each disabled exactly when generating. */
  datatype Controls = Spinner | Buttons(creativeDisabled: bool, realisticDisabled: bool)

  /** The buttons are shown only when not generating, so they are never shown
      disabled and no second request can be started while one is pending. */
  function ControlsFor(isGenerating: bool): (c: Controls)
    ensures c.Spinner? <==> isGenerating
    ensures c.Buttons? ==> !c.creativeDisabled && !c.realisticDisabled
  {
    if isGenerating then Spinner else Buttons(isGenerating, isGenerating)
  }

  /** The form's state: the keywords as last handed to the wizard, the name
      error and the generating flag. */
  class Form {
    var keywords: Keywords
    var nameError: Option<string>
    var isGenerating: bool

    /** The name effect has run for the current name. */
    ghost predicate Valid()
      reads this
    {
      nameError == NameErrorFor(keywords.name)
    }

    constructor (keywords: Keywords)
      ensures Valid() && this.keywords == keywords && !isGenerating
    {
      this.keywords := keywords;
      nameError := NameErrorFor(keywords.name);
      isGenerating := false;
    }

    /** `handleChange`, followed by the name effect. */
    method HandleChange(field: Field, value: string)
      requires Valid()
      modifies this
      ensures Valid() && keywords == WithField(old(keywords), field, value)
      ensures isGenerating == old(isGenerating)
    {
      keywords := WithField(keywords, field, value);
      nameError := NameErrorFor(keywords.name);
    }

    /** `handleGeneratePassion`, as one step: on success only `passion` is
        replaced by the suggestion; on failure the keywords stay as they were;
        either way the spinner is gone afterwards. Reachable only through the
        buttons, that is when not generating. */
    method HandleGeneratePassion(env: GeminiService.Environment, kind: GeminiService.PassionKind)
      requires Valid() && !isGenerating
      modifies this
      ensures Valid() && !isGenerating
      ensures var r := GeminiService.GeneratePassion(env, GeminiService.PassionPrompt(env.prompts, kind));
              keywords == (if r.Success? then old(keywords).(passion := r.value) else old(keywords))
      ensures keywords.name == old(keywords.name) && nameError == old(nameError)
    {
      isGenerating := true;
      var r := GeminiService.GeneratePassion(env, GeminiService.PassionPrompt(env.prompts, kind));
      if r.Success? {
        keywords := WithField(keywords, Passion, r.value);
      }
      isGenerating := false;
    }
  }
}
