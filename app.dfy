/** App.tsx: the three-card wizard. The session holds the step (0 input,
    1 scenario editor, 2 result), the reference images the uploader reported,
    the keywords, the consent flag, the scenario, the generated image, the
    error text and the loading flag. Each handler runs as one step: the remote
    calls are the functions of GeminiService applied to an environment, and
    `processImage` (utils/imageProcessor.ts) hands its argument back unchanged,
    so the generated image is the service's data URL itself. */
module App {
  import opened Outcomes
  import opened Text
  import opened Types
  import GeminiService
  import KeywordForm

  /** The number of cards: input, scenario editor, result. */
  const CARD_COUNT := 3

  /** The character class of INVALID_FILENAME_CHARS_REGEX: \ / : * ? " < > | */
  const INVALID_FILENAME_CHARS: set<char> := {'\\', '/', ':', '*', '?', '\"', '<', '>', '|'}

  const FORM_INCOMPLETE := "Per favore carica almeno un'immagine, " + "compila tutti i campi e accetta il consenso alla privacy."
  const UNKNOWN_ERROR := "Si è verificato un errore sconosciuto."
  const UNKNOWN_GENERATION_ERROR := "Si è verificato un errore sconosciuto " + "durante la generazione dell'immagine."
  const UNKNOWN_REGENERATION_ERROR := "Si è verificato un errore sconosciuto " + "durante la rigenerazione dell'immagine."

  // ---------------------------------------------------------------------------
  // The progression guard

  /** `isFormValid`, with each `trim() !== ''` test written as "not all
      whitespace"; FormValidIff shows this is the source's expression. */
  predicate FormValid(images: seq<ImageFile>, keywords: Keywords, privacyAccepted: bool) {
    |images| > 0
    && !AllWhitespace(keywords.passion)
    && !AllWhitespace(keywords.name)
    && !ContainsAny(keywords.name, INVALID_FILENAME_CHARS)
    && privacyAccepted
  }

  /** The guard is the conjunction written in App.tsx, and it holds exactly
      when there is an image, both fields have a character that is not
      whitespace, the name has none of the nine forbidden characters, and
      consent is given. */
  lemma {:induction false} FormValidIff(images: seq<ImageFile>, keywords: Keywords, privacyAccepted: bool)
    ensures FormValid(images, keywords, privacyAccepted) <==>
              |images| > 0 && Trim(keywords.passion) != "" && Trim(keywords.name) != ""
              && !ContainsAny(keywords.name, INVALID_FILENAME_CHARS) && privacyAccepted
    ensures FormValid(images, keywords, privacyAccepted) <==>
              |images| > 0
              && (exists i :: 0 <= i < |keywords.passion| && !IsJsWhitespace(keywords.passion[i]))
              && (exists i :: 0 <= i < |keywords.name| && !IsJsWhitespace(keywords.name[i]))
              && (forall i :: 0 <= i < |keywords.name| ==> keywords.name[i] !in INVALID_FILENAME_CHARS)
              && privacyAccepted
  {
    TrimEmptyIff(keywords.passion);
    TrimEmptyIff(keywords.name);
  }

  /** The wizard's forbidden characters are the form's, so a name the form
      flags always blocks the wizard. */
  lemma {:induction false} NameErrorBlocksProgress(images: seq<ImageFile>, keywords: Keywords, privacyAccepted: bool)
    ensures INVALID_FILENAME_CHARS == KeywordForm.INVALID_FILENAME_CHARS
    ensures KeywordForm.NameErrorFor(keywords.name).Some? ==> !FormValid(images, keywords, privacyAccepted)
  {
  }

  /** Past the guard, generating a scenario never fails for lack of images:
      with the key present, a failure is a read failure or the generic text. */
  lemma {:induction false} GuardedScenarioFailure(env: GeminiService.Environment, images: seq<ImageFile>, keywords: Keywords,
                               privacyAccepted: bool)
    requires FormValid(images, keywords, privacyAccepted) && Truthy(env.apiKey)
    ensures var r := GeminiService.GenerateScenario(env, Files(images), keywords);
            var parts := GeminiService.ImageParts(Files(images), env.readFile);
            r.Failure? ==> (parts.Failure? && r.error == parts.error)
                           || (parts.Success? && r.error == ErrorValue(GeminiService.SCENARIO_GENERIC))
  {
  }

  // ---------------------------------------------------------------------------
  // Card rotation

  /** The position of card `index` in the stack when card `step` is in front. */
  function DisplayOrder(index: nat, step: nat): (order: nat)
    requires index < CARD_COUNT && step < CARD_COUNT
    ensures order < CARD_COUNT
    ensures order == (index - step) % CARD_COUNT
    ensures order == 0 <==> index == step
  {
    if index >= step then index - step else CARD_COUNT - step + index
  }

  /** `zIndex: cards.length - displayOrder` */
  function ZIndex(index: nat, step: nat): (z: nat)
    requires index < CARD_COUNT && step < CARD_COUNT
    ensures 1 <= z <= CARD_COUNT
    ensures z == CARD_COUNT <==> index == step
  {
    CARD_COUNT - DisplayOrder(index, step)
  }

  /** For each step the orders of the three cards are 0, 1 and 2, each once:
      no two cards share a place, and the front card is drawn on top. */
  lemma {:induction false} DisplayOrderIsPermutation(step: nat)
    requires step < CARD_COUNT
    ensures forall i, j :: 0 <= i < CARD_COUNT && 0 <= j < CARD_COUNT && DisplayOrder(i, step) == DisplayOrder(j, step) ==> i == j
    ensures {DisplayOrder(0, step), DisplayOrder(1, step), DisplayOrder(2, step)} == {0, 1, 2}
    ensures forall i :: 0 <= i < CARD_COUNT ==> ZIndex(i, step) <= ZIndex(step, step)
  {
  }

  // ---------------------------------------------------------------------------
  // The session

  class Session {
    var step: nat
    var referenceImages: seq<ImageFile>
    var keywords: Keywords
    var privacyAccepted: bool
    var scenario: string
    var generatedImage: Option<string>
    var error: Option<string>
    var isLoading: bool

    /** The step names one of the three cards. */
    ghost predicate Valid()
      reads this
    {
      step < CARD_COUNT
    }

    /** The initial state of the `useState` hooks. */
    constructor ()
      ensures Valid() && step == 0 && referenceImages == [] && keywords == EmptyKeywords
      ensures !privacyAccepted && scenario == "" && generatedImage == None && error == None && !isLoading
    {
      step := 0;
      referenceImages := [];
      keywords := EmptyKeywords;
      privacyAccepted := false;
      scenario := "";
      generatedImage := None;
      error := None;
      isLoading := false;
    }

    predicate IsFormValid()
      reads this
    {
      FormValid(referenceImages, keywords, privacyAccepted)
    }

    /** `handleGenerateScenario`. With the guard false only the error is set.
        Otherwise the old image is cleared, and the scenario text moves the
        wizard to the editor; a failure keeps the step and shows the thrown
        message, or the unknown-error text for a value that is not an Error. */
    method HandleGenerateScenario(env: GeminiService.Environment)
      requires Valid()
      modifies this
      ensures Valid()
      ensures referenceImages == old(referenceImages) && keywords == old(keywords)
              && privacyAccepted == old(privacyAccepted)
      ensures !old(IsFormValid()) ==>
                error == Some(FORM_INCOMPLETE) && step == old(step) && scenario == old(scenario)
                && generatedImage == old(generatedImage) && isLoading == old(isLoading)
      ensures old(IsFormValid()) ==>
                var r := GeminiService.GenerateScenario(env, Files(old(referenceImages)), old(keywords));
                generatedImage == None && !isLoading
                && (r.Success? ==> step == 1 && scenario == r.value && scenario != "" && error == None)
                && (r.Failure? ==> step == old(step) && scenario == old(scenario)
                                   && error == Some(MessageOf(r.error, UNKNOWN_ERROR)))
    {
      if !IsFormValid() {
        error := Some(FORM_INCOMPLETE);
        return;
      }
      isLoading := true;
      error := None;
      generatedImage := None;
      var result := GeminiService.GenerateScenario(env, Files(referenceImages), keywords);
      if result.Success? {
        scenario := result.value;
        step := 1;
      } else {
        error := Some(MessageOf(result.error, UNKNOWN_ERROR));
      }
      isLoading := false;
    }

    /** `handleConfirmScenario`: the edited text is kept whatever happens; an
        image moves the wizard to the result card, a failure sends it back to
        the editor, not to the input card. */
    method HandleConfirmScenario(env: GeminiService.Environment, finalScenario: string)
      requires Valid()
      modifies this
      ensures Valid() && scenario == finalScenario && !isLoading
      ensures referenceImages == old(referenceImages) && keywords == old(keywords)
              && privacyAccepted == old(privacyAccepted)
      ensures var r := GeminiService.GenerateFinalImage(env, Files(old(referenceImages)), finalScenario);
              (r.Success? ==> step == 2 && generatedImage == Some(r.value) && error == None
                              && StartsWith(r.value, "data:image/"))
              && (r.Failure? ==> step == 1 && generatedImage == old(generatedImage)
                                 && error == Some(MessageOf(r.error, UNKNOWN_GENERATION_ERROR)))
    {
      scenario := finalScenario;
      isLoading := true;
      error := None;
      var rawImageResult := GeminiService.GenerateFinalImage(env, Files(referenceImages), finalScenario);
      if rawImageResult.Success? {
        var processedImage := rawImageResult.value;
        generatedImage := Some(processedImage);
        step := 2;
      } else {
        error := Some(MessageOf(rawImageResult.error, UNKNOWN_GENERATION_ERROR));
        step := 1;
      }
      isLoading := false;
    }

    /** `handleRegenerateImage`: a new image for the stored scenario; on
        failure no earlier image stays on screen and the step is kept. */
    method HandleRegenerateImage(env: GeminiService.Environment)
      requires Valid()
      modifies this
      ensures Valid() && !isLoading
      ensures referenceImages == old(referenceImages) && keywords == old(keywords)
              && privacyAccepted == old(privacyAccepted) && scenario == old(scenario)
      ensures var r := GeminiService.GenerateFinalImage(env, Files(old(referenceImages)), old(scenario));
              (r.Success? ==> step == 2 && generatedImage == Some(r.value) && error == None)
              && (r.Failure? ==> step == old(step) && generatedImage == None
                                 && error == Some(MessageOf(r.error, UNKNOWN_REGENERATION_ERROR)))
    {
      isLoading := true;
      error := None;
      generatedImage := None;
      var rawImageResult := GeminiService.GenerateFinalImage(env, Files(referenceImages), scenario);
      if rawImageResult.Success? {
        var processedImage := rawImageResult.value;
        generatedImage := Some(processedImage);
        step := 2;
      } else {
        error := Some(MessageOf(rawImageResult.error, UNKNOWN_REGENERATION_ERROR));
        generatedImage := None;
      }
      isLoading := false;
    }

    /** `handleBackToInput`: back to the input card, everything else kept. */
    method HandleBackToInput()
      requires Valid()
      modifies this
      ensures Valid() && step == 0
      ensures referenceImages == old(referenceImages) && keywords == old(keywords)
              && privacyAccepted == old(privacyAccepted) && scenario == old(scenario)
              && generatedImage == old(generatedImage) && error == old(error) && isLoading == old(isLoading)
    {
      step := 0;
    }

    /** `handleReset`: the initial state again, except the loading flag,
        which is left as it is. */
    method HandleReset()
      requires Valid()
      modifies this
      ensures Valid() && step == 0 && referenceImages == [] && keywords == EmptyKeywords
      ensures !privacyAccepted && scenario == "" && generatedImage == None && error == None
      ensures isLoading == old(isLoading)
      ensures !IsFormValid()
    {
      referenceImages := [];
      keywords := EmptyKeywords;
      scenario := "";
      generatedImage := None;
      error := None;
      privacyAccepted := false;
      step := 0;
    }

    /** `onImagesChange` of the uploader. */
    method SetReferenceImages(images: seq<ImageFile>)
      requires Valid()
      modifies this
      ensures Valid() && referenceImages == images
      ensures step == old(step) && keywords == old(keywords) && privacyAccepted == old(privacyAccepted)
              && scenario == old(scenario) && generatedImage == old(generatedImage) && error == old(error)
              && isLoading == old(isLoading)
    {
      referenceImages := images;
    }

    /** `onKeywordsChange` of the form. */
    method SetKeywords(keywords: Keywords)
      requires Valid()
      modifies this
      ensures Valid() && this.keywords == keywords
      ensures step == old(step) && referenceImages == old(referenceImages) && privacyAccepted == old(privacyAccepted)
              && scenario == old(scenario) && generatedImage == old(generatedImage) && error == old(error)
              && isLoading == old(isLoading)
    {
      this.keywords := keywords;
    }

    /** The consent checkbox. */
    method SetPrivacyAccepted(checked: bool)
      requires Valid()
      modifies this
      ensures Valid() && privacyAccepted == checked
      ensures step == old(step) && referenceImages == old(referenceImages) && keywords == old(keywords)
              && scenario == old(scenario) && generatedImage == old(generatedImage) && error == old(error)
              && isLoading == old(isLoading)
    {
      privacyAccepted := checked;
    }
  }
}
