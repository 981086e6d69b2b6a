/** services/geminiService.ts: prompt building, request assembly, response
    classification and error remapping for the three remote calls. The
    remote model, the FileReader and `JSON.parse` are inputs gathered in an
    `Environment`; everything the code decides about them is modelled. */
module GeminiService {
  import opened Outcomes
  import opened Text
  import opened Types
  import DataUrl

  const TEXT_MODEL := "gemini-2.5-flash"
  const IMAGE_MODEL := "gemini-2.5-flash-image-preview"
  const PASSION_PLACEHOLDER := "{passion}"
  const SCENARIO_PLACEHOLDER := "{scenario}"

  const API_KEY_MISSING := "API_KEY environment variable not set."
  const SCENARIO_NEEDS_IMAGE := "È richiesta almeno un'immagine di riferimento per la generazione dello scenario."
  const IMAGE_NEEDS_IMAGE := "È richiesta almeno un'immagine di riferimento."
  const PASSION_EMPTY := "Il modello non ha restituito un suggerimento."
  const PASSION_GENERIC := "Impossibile generare un suggerimento. Riprova."
  const SCENARIO_EMPTY := "Il modello non ha restituito uno scenario testuale. Potrebbe aver rifiutato il prompt."
  const SCENARIO_GENERIC := "Impossibile generare lo scenario. Controlla la console per maggiori dettagli."
  const RATE_LIMITED := "Limite di richieste superato. " + "L'applicazione è molto richiesta in questo momento. Per favore, riprova più tardi."
  const SAFETY_PREFIX := "La generazione " + "dell'immagine è stata bloccata"
  const SAFETY_FINISH := SAFETY_PREFIX + " per motivi di sicurezza. Per favore, prova a modificare lo scenario."
  const NO_IMAGE_PRODUCED := "Nessuna immagine " + "è stata generata. La richiesta potrebbe essere stata bloccata o il modello non è riuscito a produrre un'immagine. Prova a modificare lo scenario."
  const IMAGE_GENERIC := "Impossibile generare l'immagine. Controlla la console per maggiori dettagli."

  /** The safety error that names the prompt's block reason. */
  function BlockedMessage(reason: string): (m: string)
    ensures StartsWith(m, SAFETY_PREFIX)
  {
    SAFETY_PREFIX + " per motivi di sicurezza (" + reason + "). Prova a modificare lo scenario."
  }

  /** The prompt texts of constants.ts, opaque here; `negativePrompt` is imported
      by the service but defined nowhere in the repository. */
  datatype Prompts = Prompts(scenarioTemplate: string, imageTemplate: string, negativePrompt: string,
                             creativePassion: string, realisticPassion: string)

  /** A request part: inline base 64 image data with its MIME type, or text. */
  datatype Part = InlineData(data: string, mimeType: string) | TextPart(text: string)

  datatype Modality = ImageModality | TextModality

  /** The arguments of `ai.models.generateContent`. */
  datatype Request = Request(model: string, parts: seq<Part>, responseModalities: seq<Modality>)

  /** The fields of the SDK response that the code reads. An empty candidate
      list stands for absent candidates, `None` parts for absent content or parts. */
  datatype InlineImage = InlineImage(mimeType: string, data: string)
  datatype ResponsePart = ResponsePart(inlineData: Option<InlineImage>)
  datatype Candidate = Candidate(finishReason: Option<string>, parts: Option<seq<ResponsePart>>)
  datatype Response = Response(blockReason: Option<string>, candidates: seq<Candidate>, text: Option<string>)

  /** Everything outside the code: `process.env.API_KEY`, the prompt texts,
      the FileReader outcome per file (the base 64 part of its data URL, or the
      value it rejects with), the remote call, and the `error.code` that
      `JSON.parse` finds in an error message (`None` when parsing fails or
      there is no code). */
  datatype Environment = Environment(
    apiKey: Option<string>,
    prompts: Prompts,
    readFile: File -> Result<string, Thrown>,
    call: Request -> Result<Response, Thrown>,
    jsonErrorCode: string -> Option<int>)

  /** The scenario prompt: the first `{passion}` of the template replaced. */
  function ScenarioPrompt(template: string, passion: string): string {
    ReplaceFirst(template, PASSION_PLACEHOLDER, passion)
  }

  /** `buildImageGenerationPrompt`: the first `{scenario}` replaced, then a
      newline and the negative prompt. */
  function ImagePrompt(template: string, scenario: string, negativePrompt: string): (prompt: string)
    ensures EndsWith(prompt, "\n" + negativePrompt)
  {
    ReplaceFirst(template, SCENARIO_PLACEHOLDER, scenario) + "\n" + negativePrompt
  }

  /** A template `pre + "{passion}" + post` with no earlier placeholder yields
      `pre + passion + post`. */
  lemma {:induction false} ScenarioPromptSubstitutes(pre: string, post: string, passion: string)
    requires forall j :: 0 <= j < |pre| ==> !OccursAt(pre + PASSION_PLACEHOLDER + post, PASSION_PLACEHOLDER, j)
    ensures ScenarioPrompt(pre + PASSION_PLACEHOLDER + post, passion) == pre + passion + post
  {
    ReplaceFirstSplits(pre, PASSION_PLACEHOLDER, post, passion);
  }

  /** A template `pre + "{scenario}" + post` with no earlier placeholder yields
      `pre + scenario + post + "\n" + negativePrompt`. */
  lemma {:induction false} ImagePromptSubstitutes(pre: string, post: string, scenario: string, negativePrompt: string)
    requires forall j :: 0 <= j < |pre| ==> !OccursAt(pre + SCENARIO_PLACEHOLDER + post, SCENARIO_PLACEHOLDER, j)
    ensures ImagePrompt(pre + SCENARIO_PLACEHOLDER + post, scenario, negativePrompt)
         == pre + scenario + post + "\n" + negativePrompt
  {
    ReplaceFirstSplits(pre, SCENARIO_PLACEHOLDER, post, scenario);
  }

  /** `Promise.all` over the per-file reads: one inline part per file, in input
      order, with that file's MIME type; or the first rejection, unchanged. */
  function ImageParts(files: seq<File>, readFile: File -> Result<string, Thrown>): (r: Result<seq<Part>, Thrown>)
    ensures r.Success? ==> |r.value| == |files|
    ensures r.Success? ==> forall i :: 0 <= i < |files| ==>
              readFile(files[i]).Success? && r.value[i] == InlineData(readFile(files[i]).value, files[i].mimeType)
    ensures r.Failure? ==> exists i :: 0 <= i < |files| && readFile(files[i]) == Failure(r.error)
                                      && forall j :: 0 <= j < i ==> readFile(files[j]).Success?
  {
    if files == [] then Success([])
    else match readFile(files[0])
      case Failure(e) => Failure(e)
      case Success(data) =>
        match ImageParts(files[1..], readFile)
        case Failure(e) =>
          var i :| 0 <= i < |files[1..]| && readFile(files[1..][i]) == Failure(e)
                   && forall j :: 0 <= j < i ==> readFile(files[1..][j]).Success?;
          assert readFile(files[i + 1]) == Failure(e);
          Failure(e)
        case Success(rest) => Success([InlineData(data, files[0].mimeType)] + rest)
  }

  /** The image parts followed by exactly one text part. */
  function WithText(imageParts: seq<Part>, prompt: string): (parts: seq<Part>)
    ensures |parts| == |imageParts| + 1 && parts[..|imageParts|] == imageParts
    ensures parts[|imageParts|] == TextPart(prompt)
  {
    imageParts + [TextPart(prompt)]
  }

  // ---------------------------------------------------------------------------
  // The catch blocks

  /** The inner `try` of every catch block: `JSON.parse(error.message)` and, for
      code 429, `throw new Error(RATE_LIMITED)`. */
  function InnerTry(caught: Thrown, jsonErrorCode: string -> Option<int>): Option<Thrown> {
    if caught.ErrorValue? && jsonErrorCode(caught.message) == Some(429) then Some(ErrorValue(RATE_LIMITED))
    else None
  }

  /** The inner `catch (e) { }`: whatever the inner try threw is dropped. */
  function InnerCatch(thrown: Option<Thrown>): Option<Thrown> {
    None
  }

  /** The catch block of `generatePassion` and `generateScenario`: after the
      inner try/catch, the function's generic error is thrown. */
  function Recover(caught: Thrown, jsonErrorCode: string -> Option<int>, generic: string): (thrown: Thrown)
    ensures thrown == ErrorValue(generic)
  {
    match InnerCatch(InnerTry(caught, jsonErrorCode))
    case Some(t) => t
    case None => ErrorValue(generic)
  }

  /** The catch block of `generateFinalImage`: an `Error` whose message starts
      with the safety prefix is rethrown as it is; everything else ends in the
      generic image error. */
  function RecoverImage(caught: Thrown, jsonErrorCode: string -> Option<int>): (thrown: Thrown)
    ensures caught.ErrorValue? && StartsWith(caught.message, SAFETY_PREFIX) ==> thrown == caught
    ensures !(caught.ErrorValue? && StartsWith(caught.message, SAFETY_PREFIX)) ==> thrown == ErrorValue(IMAGE_GENERIC)
    ensures thrown != ErrorValue(RATE_LIMITED)
  {
    assert RATE_LIMITED[1] != SAFETY_PREFIX[1];
    if caught.ErrorValue? && StartsWith(caught.message, SAFETY_PREFIX) then caught
    else
      match InnerCatch(InnerTry(caught, jsonErrorCode))
      case Some(t) => t
      case None => ErrorValue(IMAGE_GENERIC)
  }

  /** The rate-limit branch is dead: even an error whose JSON carries code 429,
      for which the inner try does throw the rate-limit error, leaves the catch
      block with the generic message. */
  lemma {:induction false} RateLimitIsSwallowed(message: string, jsonErrorCode: string -> Option<int>, generic: string)
    requires jsonErrorCode(message) == Some(429)
    requires !StartsWith(message, SAFETY_PREFIX)
    ensures InnerTry(ErrorValue(message), jsonErrorCode) == Some(ErrorValue(RATE_LIMITED))
    ensures Recover(ErrorValue(message), jsonErrorCode, generic) == ErrorValue(generic)
    ensures RecoverImage(ErrorValue(message), jsonErrorCode) == ErrorValue(IMAGE_GENERIC)
  {
  }

  // ---------------------------------------------------------------------------
  // Response classification for image generation

  /** What the try block of `generateFinalImage` makes of a response. */
  datatype ImageVerdict = Blocked(message: string) | ImageUrl(url: string) | NoImage

  predicate IsImagePart(p: ResponsePart) {
    p.inlineData.Some? && StartsWith(p.inlineData.value.mimeType, "image/")
  }

  /** `parts.find(part => part.inlineData && part.inlineData.mimeType.startsWith('image/'))` */
  function FindImagePart(parts: seq<ResponsePart>): (r: Option<nat>)
    ensures r.Some? ==> r.value < |parts| && IsImagePart(parts[r.value])
    ensures r.Some? ==> forall j :: 0 <= j < r.value ==> !IsImagePart(parts[j])
    ensures r.None? ==> forall j :: 0 <= j < |parts| ==> !IsImagePart(parts[j])
  {
    if parts == [] then None
    else if IsImagePart(parts[0]) then Some(0)
    else match FindImagePart(parts[1..])
      case None => None
      case Some(k) => Some(k + 1)
  }

  /** The first candidate finished with `SAFETY`. */
  predicate SafetyFinish(response: Response) {
    |response.candidates| > 0 && response.candidates[0].finishReason == Some("SAFETY")
  }

  /** There is no first candidate, it has no parts, or none of its parts is an inline image. */
  predicate LacksImagePart(response: Response) {
    |response.candidates| == 0 || response.candidates[0].parts.None?
    || FindImagePart(response.candidates[0].parts.value).None?
  }

  /** In order: a truthy block reason, then a first candidate that finished with
      `SAFETY`, then the first inline image part (MIME type starting with `image/`) of the first candidate. */
  function Classify(response: Response): (v: ImageVerdict)
    ensures Truthy(response.blockReason) ==> v == Blocked(BlockedMessage(response.blockReason.value))
    ensures !Truthy(response.blockReason) && SafetyFinish(response) ==> v == Blocked(SAFETY_FINISH)
    ensures v.Blocked? ==> StartsWith(v.message, SAFETY_PREFIX)
    ensures v.ImageUrl? ==> StartsWith(v.url, "data:image/")
    ensures !Truthy(response.blockReason) && !SafetyFinish(response) && LacksImagePart(response) ==> v == NoImage
    ensures v.NoImage? ==> !Truthy(response.blockReason) && !SafetyFinish(response) && LacksImagePart(response)
    ensures v.ImageUrl? ==> !Truthy(response.blockReason) && !SafetyFinish(response) && !LacksImagePart(response)
                            && var image := response.candidates[0].parts.value[FindImagePart(response.candidates[0].parts.value).value].inlineData.value;
                               v.url == DataUrl.Build(image.mimeType, image.data)
  {
    if Truthy(response.blockReason) then Blocked(BlockedMessage(response.blockReason.value))
    else if |response.candidates| > 0 && response.candidates[0].finishReason == Some("SAFETY") then Blocked(SAFETY_FINISH)
    else if |response.candidates| == 0 || response.candidates[0].parts.None? then NoImage
    else
      var parts := response.candidates[0].parts.value;
      match FindImagePart(parts)
      case None => NoImage
      case Some(k) =>
        var image := parts[k].inlineData.value;
        var url := DataUrl.Build(image.mimeType, image.data);
        assert url == "data:" + image.mimeType + DataUrl.BASE64_MARKER + image.data;
        assert image.mimeType == "image/" + image.mimeType[6..];
        assert url[..11] == "data:image/";
        ImageUrl(url)
  }

  /** Without a block signal, the first image part of the first candidate is
      returned as a base 64 data URL of its MIME type and data. */
  lemma {:induction false} ClassifyFindsFirstImage(response: Response, k: nat)
    requires !Truthy(response.blockReason)
    requires |response.candidates| > 0 && response.candidates[0].finishReason != Some("SAFETY")
    requires response.candidates[0].parts.Some?
    requires k < |response.candidates[0].parts.value|
    requires IsImagePart(response.candidates[0].parts.value[k])
    requires forall j :: 0 <= j < k ==> !IsImagePart(response.candidates[0].parts.value[j])
    ensures var image := response.candidates[0].parts.value[k].inlineData.value;
            Classify(response) == ImageUrl(DataUrl.Build(image.mimeType, image.data))
  {
    var parts := response.candidates[0].parts.value;
    assert IsImagePart(parts[k]);
  }

  // ---------------------------------------------------------------------------
  // The three service functions

  function PassionRequest(prompt: string): Request {
    Request(TEXT_MODEL, [TextPart(prompt)], [])
  }

  /** `generatePassion`: the key check, then the call; non-empty text comes back
      trimmed, and every failure inside the try becomes the generic message. */
  function GeneratePassion(env: Environment, prompt: string): (r: Result<string, Thrown>)
    ensures !Truthy(env.apiKey) ==> r == Failure(ErrorValue(API_KEY_MISSING))
    ensures Truthy(env.apiKey) && r.Failure? ==> r.error == ErrorValue(PASSION_GENERIC)
    ensures r.Success? ==> exists response :: env.call(PassionRequest(prompt)) == Success(response)
                              && Truthy(response.text) && r.value == Trim(response.text.value)
    ensures Truthy(env.apiKey) && env.call(PassionRequest(prompt)).Success?
            && Truthy(env.call(PassionRequest(prompt)).value.text)
            ==> r == Success(Trim(env.call(PassionRequest(prompt)).value.text.value))
    ensures Truthy(env.apiKey) && !(env.call(PassionRequest(prompt)).Success?
                                    && Truthy(env.call(PassionRequest(prompt)).value.text))
            ==> r == Failure(ErrorValue(PASSION_GENERIC))
  {
    if !Truthy(env.apiKey) then Failure(ErrorValue(API_KEY_MISSING))
    else
      var attempt: Result<string, Thrown> :=
        (match env.call(PassionRequest(prompt))
         case Failure(e) => Failure(e)
         case Success(response) =>
           if Truthy(response.text) then Success(Trim(response.text.value))
           else Failure(ErrorValue(PASSION_EMPTY)));
      match attempt
      case Success(text) => Success(text)
      case Failure(e) => Failure(Recover(e, env.jsonErrorCode, PASSION_GENERIC))
  }

  /** `generateCreativePassion` and `generateRealisticPassion` */
  datatype PassionKind = Creative | Realistic

  function PassionPrompt(prompts: Prompts, kind: PassionKind): string {
    match kind
    case Creative => prompts.creativePassion
    case Realistic => prompts.realisticPassion
  }

  /** The request `generateScenario` sends, once the reads succeeded. */
  function ScenarioRequest(imageParts: seq<Part>, prompts: Prompts, keywords: Keywords): Request {
    Request(TEXT_MODEL, WithText(imageParts, ScenarioPrompt(prompts.scenarioTemplate, keywords.passion)), [])
  }

  /** `generateScenario`: key, then at least one image, then the reads (outside
      the try, so a read failure propagates as it is), then the call; the text
      comes back untrimmed. */
  function GenerateScenario(env: Environment, files: seq<File>, keywords: Keywords): (r: Result<string, Thrown>)
    ensures !Truthy(env.apiKey) ==> r == Failure(ErrorValue(API_KEY_MISSING))
    ensures Truthy(env.apiKey) && files == [] ==> r == Failure(ErrorValue(SCENARIO_NEEDS_IMAGE))
    ensures Truthy(env.apiKey) && files != [] && ImageParts(files, env.readFile).Failure?
            ==> r == Failure(ImageParts(files, env.readFile).error)
    ensures Truthy(env.apiKey) && files != [] && ImageParts(files, env.readFile).Success? && r.Failure?
            ==> r.error == ErrorValue(SCENARIO_GENERIC)
    ensures r.Success? ==> r.value != ""
    ensures r.Success? ==> exists response ::
              env.call(ScenarioRequest(ImageParts(files, env.readFile).value, env.prompts, keywords)) == Success(response)
              && Truthy(response.text) && r.value == response.text.value
    ensures Truthy(env.apiKey) && files != [] && ImageParts(files, env.readFile).Success?
            ==> var call := env.call(ScenarioRequest(ImageParts(files, env.readFile).value, env.prompts, keywords));
                (call.Success? && Truthy(call.value.text) ==> r == Success(call.value.text.value))
                && (!(call.Success? && Truthy(call.value.text)) ==> r == Failure(ErrorValue(SCENARIO_GENERIC)))
  {
    if !Truthy(env.apiKey) then Failure(ErrorValue(API_KEY_MISSING))
    else if |files| == 0 then Failure(ErrorValue(SCENARIO_NEEDS_IMAGE))
    else
      match ImageParts(files, env.readFile)
      case Failure(e) => Failure(e)
      case Success(imageParts) =>
        var attempt: Result<string, Thrown> :=
          (match env.call(ScenarioRequest(imageParts, env.prompts, keywords))
           case Failure(e) => Failure(e)
           case Success(response) =>
             if Truthy(response.text) then Success(response.text.value)
             else Failure(ErrorValue(SCENARIO_EMPTY)));
        match attempt
        case Success(text) => Success(text)
        case Failure(e) => Failure(Recover(e, env.jsonErrorCode, SCENARIO_GENERIC))
  }

  /** The request `generateFinalImage` sends, once the reads succeeded. */
  function ImageRequest(imageParts: seq<Part>, prompts: Prompts, scenario: string): Request {
    Request(IMAGE_MODEL, WithText(imageParts, ImagePrompt(prompts.imageTemplate, scenario, prompts.negativePrompt)),
            [ImageModality, TextModality])
  }

  /** `generateFinalImage`: key, then at least one image, then the reads, then
      the call and its classification. Safety errors leave the catch block
      unchanged, every other failure in the try becomes the generic image
      error, and a success is always a data URL of an image MIME type. */
  function GenerateFinalImage(env: Environment, files: seq<File>, scenario: string): (r: Result<string, Thrown>)
    ensures !Truthy(env.apiKey) ==> r == Failure(ErrorValue(API_KEY_MISSING))
    ensures Truthy(env.apiKey) && files == [] ==> r == Failure(ErrorValue(IMAGE_NEEDS_IMAGE))
    ensures Truthy(env.apiKey) && files != [] && ImageParts(files, env.readFile).Failure?
            ==> r == Failure(ImageParts(files, env.readFile).error)
    ensures r.Success? ==> StartsWith(r.value, "data:image/")
    ensures r.Success? ==> exists response ::
              env.call(ImageRequest(ImageParts(files, env.readFile).value, env.prompts, scenario)) == Success(response)
              && Classify(response) == ImageUrl(r.value)
    ensures Truthy(env.apiKey) && files != [] && ImageParts(files, env.readFile).Success? && r.Failure?
            ==> r.error != ErrorValue(RATE_LIMITED)
    ensures Truthy(env.apiKey) && files != [] && ImageParts(files, env.readFile).Success?
            ==> var call := env.call(ImageRequest(ImageParts(files, env.readFile).value, env.prompts, scenario));
                (call.Failure? ==> r == Failure(RecoverImage(call.error, env.jsonErrorCode)))
                && (call.Success? && Classify(call.value).ImageUrl? ==> r == Success(Classify(call.value).url))
                && (call.Success? && Classify(call.value).Blocked? ==> r == Failure(ErrorValue(Classify(call.value).message)))
                && (call.Success? && Classify(call.value).NoImage? ==> r == Failure(ErrorValue(IMAGE_GENERIC)))
    ensures Truthy(env.apiKey) && files != [] && ImageParts(files, env.readFile).Success? && r.Failure?
            ==> r.error == ErrorValue(IMAGE_GENERIC)
                || (r.error.ErrorValue? && StartsWith(r.error.message, SAFETY_PREFIX))
    ensures Truthy(env.apiKey) && files != [] && ImageParts(files, env.readFile).Success?
            ==> var call := env.call(ImageRequest(ImageParts(files, env.readFile).value, env.prompts, scenario));
                call.Success? && !Truthy(call.value.blockReason) && !SafetyFinish(call.value) && LacksImagePart(call.value)
                ==> r == Failure(ErrorValue(IMAGE_GENERIC))
  {
    if !Truthy(env.apiKey) then Failure(ErrorValue(API_KEY_MISSING))
    else if |files| == 0 then Failure(ErrorValue(IMAGE_NEEDS_IMAGE))
    else
      match ImageParts(files, env.readFile)
      case Failure(e) => Failure(e)
      case Success(imageParts) =>
        var attempt: Result<string, Thrown> :=
          (match env.call(ImageRequest(imageParts, env.prompts, scenario))
           case Failure(e) => Failure(e)
           case Success(response) =>
             match Classify(response)
             case Blocked(message) => Failure(ErrorValue(message))
             case ImageUrl(url) => Success(url)
             case NoImage =>
               assert NO_IMAGE_PRODUCED[0] != SAFETY_PREFIX[0];
               Failure(ErrorValue(NO_IMAGE_PRODUCED)));
        match attempt
        case Success(url) => Success(url)
        case Failure(e) => Failure(RecoverImage(e, env.jsonErrorCode))
  }

  /** A block reported by the service reaches the caller with its own message. */
  lemma {:induction false} SafetyBlockPassesThrough(env: Environment, files: seq<File>, scenario: string, response: Response)
    requires Truthy(env.apiKey) && files != [] && ImageParts(files, env.readFile).Success?
    requires env.call(ImageRequest(ImageParts(files, env.readFile).value, env.prompts, scenario)) == Success(response)
    requires Classify(response).Blocked?
    ensures GenerateFinalImage(env, files, scenario) == Failure(ErrorValue(Classify(response).message))
  {
  }
}
