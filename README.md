# ImageToPassion in Dafny

ImageToPassion is a three-card wizard in the browser:

1. The user uploads up to five reference photos, types a passion and a name, and gives consent.
2. A remote Gemini model writes a scenario from the photos, and the user edits it.
3. A second call turns the photos and the scenario into a portrait. The user can download it, share it or show it as a QR code.

This project models the logic of that wizard and proves what it promises. Every remote call, file read and image decode is an input outcome.

One module per source file:

- **App** (`App.tsx`). The wizard session is a class.
  - Its handlers are one atomic step each: generate scenario, confirm scenario, regenerate, back, reset.
  - It also holds the progression guard and the card-rotation arithmetic.
  - `processImage` is the identity, so the generated image is the service's data URL.
- **ImageUploader** (`components/ImageUploader.tsx`). The bounded image list is a class.
  - It keeps the list, the last list reported to the wizard, the running validations, and a ledger of live object URLs.
  - Its operations: append a truncated batch, complete one validation, remove by id.
- **GeminiService** (`services/geminiService.ts`).
  - It covers the prompt templates, part assembly, the precondition order, response classification and the catch blocks' remapping.
  - The SDK, the FileReader and `JSON.parse` are fields of an `Environment` value.
- **ResultDisplay** (`components/ResultDisplay.tsx`): `base64ToBlob` with its byte loop, the download and share flows, the cycling loading message, and the card's visibility rules.
- **QrCodeModal** (`components/QrCodeModal.tsx`): its own `base64ToBlob`, the object-URL effect with its cleanup, and the modal's view.
- **KeywordForm** (`components/KeywordForm.tsx`): the forbidden file-name characters, single-field edits, and the suggestion flow.
- **ScenarioEditor** (`components/ScenarioEditor.tsx`): the local buffer, its reset when the prop changes, and the enable rules.
- **Support modules**:
  - `Outcomes`: `Option`, `Result`, the thrown-value datatype and JavaScript truthiness.
  - `Text`: JavaScript `trim`, `indexOf`, `split` and first-occurrence `replace`.
  - `Base64`: `atob` as the forgiving base64 decode, and an RFC 4648 section 4 encoder used to state round trips.
  - `DataUrl`: the `data:` URL of section 3 of RFC 2397 as the service builds it, and the blob `base64ToBlob` recovers from it.
  - `Types`: the records of `types.ts`.
  - `Modular`: the arithmetic facts the message-cycling proofs use.

What the code does, which the model follows:

- **Rate limit.** Each catch block throws the rate-limit error only inside an inner `try` whose `catch` is empty, so a 429 never reaches the caller and ends in the function's generic message. `GeminiService.RateLimitIsSwallowed` proves this.
- **Image generation failures.** The try block of `generateFinalImage` throws its own errors only on a block reason, a `SAFETY` finish or a response without an image part. An error thrown by the model call reaches the same catch block.
- **Server errors.** No branch treats a 5xx status differently from any other failure.
- **Post-processing.** `processImage` returns its argument.
- **Variation flag.** Regeneration passes a third "variation" argument that `generateFinalImage` does not take. It therefore sends the same request as a confirm.
- **Blob type.** `new Blob([bytes], { type })` stores the type as the Blob constructor of the W3C File API does: ASCII-lowercased, or empty when some character is outside U+0020 to U+007E. `DataUrl.BlobType` models that, and the share flow's `File` keeps the blob's stored type.

## Model

| member | source | states |
|---|---|---|
| Text.TrimEmptyIff | App.tsx:34-35 | `trim()` is empty exactly when every character is JavaScript whitespace |
| Text.Trim | components/ResultDisplay.tsx:73 | the result is a contiguous slice of the input; everything outside it is whitespace; its first and last characters are not |
| Text.IndexOfIsFirst | services/geminiService.ts:72 | `indexOf` finds the earliest occurrence of the pattern |
| Text.ReplaceFirstSplits | services/geminiService.ts:17 | replacing in `pre + pat + post`, with no earlier occurrence of `pat`, yields `pre + rep + post` |
| Text.ReplaceFirstAbsent | services/geminiService.ts:17 | a template without the placeholder is left unchanged |
| Text.Split | components/ResultDisplay.tsx:39 | `split` gives at least one piece; the pieces joined with the separator give back the string; no piece contains the separator; there is one piece exactly when the separator does not occur, and otherwise the first piece ends at its first occurrence |
| Text.SplitAtUniqueSeparator | components/ResultDisplay.tsx:39-40 | for a separator whose first character does not recur in it, `a + sep + b` with no separator in `a` or `b` splits into exactly `[a, b]` |
| Text.ContainsAny | App.tsx:36 | the regular-expression test holds exactly when some character is in the class |
| Text.SpacesToUnderscores | components/ResultDisplay.tsx:73 | same length; every U+0020 becomes `_`; every other character is kept |
| Base64.CharOf | components/ResultDisplay.tsx:45 | the alphabet character of a sextet decodes back to that sextet |
| Base64.AtobAcceptsOnlyBase64Text | components/ResultDisplay.tsx:45 | `atob` succeeds only when every non-whitespace character before the padding is in the base64 alphabet |
| Base64.DecodeEncodeUnpadded | components/ResultDisplay.tsx:45 | decoding the unpadded RFC 4648 encoding of any bytes yields those bytes |
| Base64.AtobEncode | components/ResultDisplay.tsx:45 | `atob` of the padded encoding of any bytes is the binary string of those bytes |
| DataUrl.Build | services/geminiService.ts:171 | the image URL starts with `data:` and ends with `;base64,` followed by the payload |
| DataUrl.BytesOfBinaryString | components/ResultDisplay.tsx:49-51 | taking each character code of a binary string gives back its bytes |
| DataUrl.Header | components/ResultDisplay.tsx:39-43 | a header is found exactly when there are two pieces and a non-empty second `:` field; the content type has no `:` |
| DataUrl.HeaderSplitsUrl | components/ResultDisplay.tsx:39-43 | with a header, the URL is the first piece, the marker and the payload |
| DataUrl.BlobType | components/ResultDisplay.tsx:53 | the stored type is printable ASCII without capitals, and is empty or as long as the given type |
| DataUrl.BlobTypeOfNormal | components/ResultDisplay.tsx:53 | a type already printable and lower-case is stored unchanged |
| DataUrl.BlobTypeIdempotent | components/ResultDisplay.tsx:88 | storing a stored type again changes nothing, so a `File` typed `blob.type` has the blob's type |
| DataUrl.HeaderOfBuild | components/ResultDisplay.tsx:38-42 | on a URL built from a non-empty MIME type without `:` or `;base64,` and a payload without `;`, both header checks pass and give back exactly that type and payload |
| DataUrl.BlobOfBuild | components/ResultDisplay.tsx:37-53 | for a non-empty MIME type without `:` or `;base64,`, and data `atob` accepts, the built URL gives a blob with the stored form of that type holding the decoded bytes |
| DataUrl.BlobOfEncoded | components/ResultDisplay.tsx:37-53 | round trip: for a non-empty MIME type without `:` or `;base64,`, the URL built from it and the encoding of some bytes gives back those bytes with the stored type, which is the type itself when it is printable lower-case ASCII |
| Types.Files | App.tsx:49 | `images.map(img => img.file)`, position by position |
| GeminiService.BlockedMessage | services/geminiService.ts:157 | the block-reason message starts with the safety prefix that the catch block rethrows |
| GeminiService.ImagePrompt | services/geminiService.ts:16-19 | the image prompt ends with a newline followed by the negative prompt |
| GeminiService.ScenarioPromptSubstitutes | services/geminiService.ts:72 | the first `{passion}` of the template is replaced by the passion |
| GeminiService.ImagePromptSubstitutes | services/geminiService.ts:16-19 | the first `{scenario}` is replaced, then a newline and the negative prompt follow |
| GeminiService.ImageParts | services/geminiService.ts:74-84 | on success, one inline part per file in input order, with that file's data and MIME type; otherwise the rejection of a failing file, all earlier ones having succeeded |
| GeminiService.WithText | services/geminiService.ts:86-87 | the image parts unchanged, followed by exactly one text part with the prompt |
| GeminiService.Recover | services/geminiService.ts:101-113 | whatever was caught, the catch block of the passion and scenario calls throws the generic message |
| GeminiService.RecoverImage | services/geminiService.ts:176-195 | an `Error` with the safety prefix is rethrown unchanged; everything else becomes the generic image error; never the rate-limit error |
| GeminiService.RateLimitIsSwallowed | services/geminiService.ts:185-192 | for code 429 the inner try does throw the rate-limit error, yet every catch block ends in its generic message |
| GeminiService.FindImagePart | services/geminiService.ts:165-167 | the index of the first part whose inline MIME type starts with `image/`, or none if no part has one |
| GeminiService.Classify | services/geminiService.ts:155-172 | a block reason first, then a `SAFETY` finish, both as safety messages; with neither, no image part gives `NoImage`; an image URL comes only from an image part, and is `data:<mime>;base64,<data>` of the first one |
| GeminiService.ClassifyFindsFirstImage | services/geminiService.ts:165-171 | without a block signal, the first image part becomes `data:<mime>;base64,<data>` |
| GeminiService.GeneratePassion | services/geminiService.ts:21-52 | the missing key fails first; with a key, a response with non-empty text gives exactly that text trimmed, and a failed call or an empty text gives the generic suggestion message; a success always comes from such a response |
| GeminiService.GenerateScenario | services/geminiService.ts:63-115 | key first, then at least one image, then the reads, whose failure propagates unchanged; after the reads, a response with non-empty text gives exactly that text, untrimmed, and a failed call or an empty text gives the generic scenario message |
| GeminiService.GenerateFinalImage | services/geminiService.ts:118-196 | same precondition order; after the reads, a thrown call goes through the catch block, an image part gives exactly its `data:image/` URL, a block gives its own safety message, and no image part gives the generic image error; every failure after the reads is the generic image error or a safety message, never the rate-limit error |
| GeminiService.SafetyBlockPassesThrough | services/geminiService.ts:155-163 | a response with a block signal reaches the caller with its safety message |
| App.FormValidIff | App.tsx:32-37 | the guard holds iff there is an image, both fields are non-blank after trimming, the name has none of `\ / : * ? " < > \|`, and consent is given |
| App.NameErrorBlocksProgress | App.tsx:13 | the wizard's character class equals the form's, so a name the form flags blocks the wizard |
| App.GuardedScenarioFailure | App.tsx:40-49 | past the guard, with the key set, a scenario failure is a read failure or the generic message, never "needs an image" |
| App.DisplayOrder | App.tsx:201 | the order is `(index - step) mod 3`, and it is 0 exactly for the front card |
| App.ZIndex | App.tsx:207 | the z-index lies between 1 and 3, and is 3 exactly for the front card |
| App.DisplayOrderIsPermutation | App.tsx:200-201 | for each step the three orders are 0, 1 and 2, each taken once, and the front card is on top |
| App.Session.constructor | App.tsx:16-24 | the initial session: step 0, no images, empty keywords, no consent, no scenario, image, error or loading |
| App.Session.HandleGenerateScenario | App.tsx:39-58 | guard false: only the error changes. Guard true: the image is cleared and loading ends. Success: scenario set, step 1. Failure: step and scenario kept, the thrown message shown |
| App.Session.HandleConfirmScenario | App.tsx:60-77 | the edited text is always stored. Success: the image URL, step 2. Failure: the message, step 1 |
| App.Session.HandleRegenerateImage | App.tsx:79-97 | uses the stored scenario. Success: the new image, step 2. Failure: no image, step kept, the message |
| App.Session.HandleBackToInput | App.tsx:99-101 | step 0; nothing else changes |
| App.Session.HandleReset | App.tsx:103-111 | every field back to its initial value except the loading flag; the guard is then false |
| App.Session.SetReferenceImages | App.tsx:122 | only the images change |
| App.Session.SetKeywords | App.tsx:125 | only the keywords change |
| App.Session.SetPrivacyAccepted | App.tsx:135 | only the consent changes |
| ImageUploader.AdmitBound | components/ImageUploader.tsx:15-16 | a batch of n files admits its first min(n, 5 - current) files, so the list never exceeds five |
| ImageUploader.AdmitWhenFull | components/ImageUploader.tsx:15-16 | a full list admits nothing |
| ImageUploader.ToProcess | components/ImageUploader.tsx:18-22 | one entry per admitted file, in batch order, with consecutive fresh ids and object URLs |
| ImageUploader.ProcessingEntries | components/ImageUploader.tsx:24-27 | each file becomes an entry marked processing, with its object URL as preview |
| ImageUploader.LargeEnoughIff | components/ImageUploader.tsx:34 | valid iff width or height is at least 1024; 1024 by 1 passes and 1023 by 1023 fails |
| ImageUploader.Validated | components/ImageUploader.tsx:35-40 | no error iff decoded and large enough. Otherwise `Min 1024px`, `File non valido` or `Errore di lettura`. The data URL becomes the preview except after a read failure |
| ImageUploader.ReplaceById | components/ImageUploader.tsx:43 | same length; every entry with the id is replaced and every other entry is kept |
| ImageUploader.ReplaceByIdEffect | components/ImageUploader.tsx:43 | an absent id changes nothing; with unique ids, only that one position changes |
| ImageUploader.ReplaceByIdKeepsIds | components/ImageUploader.tsx:43 | ids stay unique and in place |
| ImageUploader.RemoveByIdContents | components/ImageUploader.tsx:112 | the result holds no entry with the id and only entries of the list, and every entry with another id survives |
| ImageUploader.RemoveByIdAppend | components/ImageUploader.tsx:112 | filtering by id distributes over concatenation |
| ImageUploader.RemoveByIdAbsent | components/ImageUploader.tsx:112 | removing an absent id changes nothing |
| ImageUploader.RemoveByIdAt | components/ImageUploader.tsx:112 | with unique ids, exactly the entry at that position is dropped, and the rest keep their order |
| ImageUploader.ErrorFree | components/ImageUploader.tsx:44 | the report holds exactly the entries without an error |
| ImageUploader.ErrorFreeAppend | components/ImageUploader.tsx:44 | filtering distributes over concatenation, so the report keeps the list's order |
| ImageUploader.ErrorFreeOfClean | components/ImageUploader.tsx:114 | a list without errors is reported whole, including entries still processing |
| ImageUploader.FindById | components/ImageUploader.tsx:108 | finds an entry with that id, or reports that none is listed |
| ImageUploader.LaunchedContents | components/ImageUploader.tsx:29-30 | launching a batch adds exactly its validations and keeps those already running |
| ImageUploader.NoPendingNoLiveUrls | components/ImageUploader.tsx:47-76 | once no validation is running, no object URL is live and no entry is processing |
| ImageUploader.Uploader.constructor | components/ImageUploader.tsx:10 | empty list, nothing reported, nothing running, no live URL |
| ImageUploader.Uploader.AddFiles | components/ImageUploader.tsx:14-80 | appends the admitted files as processing entries, makes their object URLs live, launches one validation each, reports nothing, and keeps the invariant (at most five entries, unique ids, every live URL owned by a running validation) |
| ImageUploader.Uploader.AppendBatch | components/ImageUploader.tsx:18-80 | a non-empty admitted batch within capacity gets consecutive fresh ids and object URLs, is appended as processing entries and launched, and the invariant is kept |
| ImageUploader.Uploader.CreateObjectUrls | components/ImageUploader.tsx:18-22 | one fresh id and one fresh live object URL per file, in order |
| ImageUploader.Uploader.LaunchValidations | components/ImageUploader.tsx:29-79 | one running validation per file, in order |
| ImageUploader.Uploader.CompleteValidation | components/ImageUploader.tsx:31-77 | the entry is replaced by its validated form, the error-free list is reported, and that validation's object URL is revoked on every path |
| ImageUploader.Uploader.RemoveImage | components/ImageUploader.tsx:107-115 | entries with the id are dropped and the error-free rest is reported; the preview is revoked exactly when it is still an object URL |
| ResultDisplay.LoadingMessagesDistinct | constants.ts:58-65 | there are seven loading messages, all different |
| ResultDisplay.IndexOfMessage | components/ResultDisplay.tsx:21 | `indexOf`: the first position of the message, or -1 exactly when it is absent |
| ResultDisplay.NextMessage | components/ResultDisplay.tsx:20-24 | the next message is one of the list; an unknown message is followed by the first one |
| ResultDisplay.NextOfDistinct | components/ResultDisplay.tsx:21-23 | the message at position k is followed by the one at (k + 1) mod n |
| ResultDisplay.AfterTicksFromFirst | components/ResultDisplay.tsx:16-24 | after t ticks from the first message, message t mod n is shown |
| ResultDisplay.EveryMessageVisited | components/ResultDisplay.tsx:16-24 | every message appears within the first n ticks |
| ResultDisplay.ShownAfterPeriod | components/ResultDisplay.tsx:16-24 | one full period after tick t, the message of slot t mod n is shown |
| ResultDisplay.MessagesRepeat | components/ResultDisplay.tsx:16-24 | the messages shown repeat with period n |
| ResultDisplay.LoadingMessagesCycle | components/ResultDisplay.tsx:16-24 | for the app's seven messages, tick t shows message t mod 7 |
| ResultDisplay.LoadingMessage.constructor | components/ResultDisplay.tsx:16 | starts at the first message |
| ResultDisplay.LoadingMessage.Tick | components/ResultDisplay.tsx:20-24 | moves to the message after the current one |
| ResultDisplay.Uint8ArrayOf | components/ResultDisplay.tsx:46-51 | the array filled element by element holds the low byte of each character code, in order |
| ResultDisplay.Base64ToBlob | components/ResultDisplay.tsx:37-58 | the array loop yields exactly `DataUrl.BlobOf`: none without a header or on a decode failure, else the content type and one byte per decoded character |
| ResultDisplay.DownloadName | components/ResultDisplay.tsx:73 | a blank name gives `passion-portrait.png`; otherwise the trimmed name with spaces as underscores plus `.png`; the result never contains a space |
| ResultDisplay.DownloadNameStem | components/ResultDisplay.tsx:90 | the stem keeps the trimmed name's length and its non-space characters, and has no leading or trailing whitespace |
| ResultDisplay.Download | components/ResultDisplay.tsx:69-78 | no link exactly when there is no image; otherwise the link points at the image and is named `DownloadName(fileName)`, which ends in `.png` |
| ResultDisplay.ShareDataOf | components/ResultDisplay.tsx:87-94 | one file named like the download, holding the blob's bytes, with a stored type, and the fixed title and text |
| ResultDisplay.Share | components/ResultDisplay.tsx:80-110 | unsupported without an image or the share API; the error alert when conversion fails; then the file-share alert when `canShare` refuses, completion with the data when sharing succeeds, the error alert on a rejection other than `AbortError`, and no alert on an `AbortError` or a non-`Error` rejection; completed data is one file with the derived name and the blob's type and bytes |
| ResultDisplay.ShareKeepsBlobType | components/ResultDisplay.tsx:88 | the converted blob's type is already stored, so the shared file has that same type |
| ResultDisplay.CardFor | components/ResultDisplay.tsx:125-167 | placeholder iff neither loading nor an image; actions iff an image and not loading; never both; regenerate never shown disabled; spinner exactly while loading; image exactly when one exists, also while loading |
| QrCodeModal.Uint8ArrayOf | components/QrCodeModal.tsx:20-25 | the modal's copy of the fill loop yields the same bytes |
| QrCodeModal.Base64ToBlob | components/QrCodeModal.tsx:11-32 | the modal's copy meets the same specification as the result card's: exactly `DataUrl.BlobOf` |
| QrCodeModal.ViewOf | components/QrCodeModal.tsx:100-130 | hidden iff closed; otherwise exactly one of the spinner, the QR image and the failure text |
| QrCodeModal.Modal.Render | components/QrCodeModal.tsx:100 | renders nothing when not open |
| QrCodeModal.Modal.constructor | components/QrCodeModal.tsx:36-78 | the initial state followed by the first run of the effect, with its three outcomes |
| QrCodeModal.Modal.Effect | components/QrCodeModal.tsx:41-70 | closed or no image: empty URL, loading, no object URL. Rejected image: empty URL, not loading, no object URL. Otherwise one fresh object URL, stored in the ref |
| QrCodeModal.Modal.Cleanup | components/QrCodeModal.tsx:72-77 | revokes the URL in the ref and clears the ref, changing nothing else |
| QrCodeModal.Modal.Update | components/QrCodeModal.tsx:41-78 | same props: nothing runs. Changed props: the old URL is revoked, then the effect's outcome follows |
| QrCodeModal.Modal.QrSettled | components/QrCodeModal.tsx:60-70 | the generated URL, or empty on failure; loading stops |
| QrCodeModal.Modal.Unmount | components/QrCodeModal.tsx:72-77 | no object URL of the modal stays live |
| KeywordForm.NameErrorFor | components/KeywordForm.tsx:58-64 | an error exactly when the name contains one of the nine forbidden characters, and then the fixed message |
| KeywordForm.WithField | components/KeywordForm.tsx:66-72 | only the named field takes the value; the other field is kept |
| KeywordForm.WithFieldUndo | components/KeywordForm.tsx:66-72 | editing a field and then restoring its old value gives back the record |
| KeywordForm.ControlsFor | components/KeywordForm.tsx:105-128 | the spinner iff generating; the buttons are never shown disabled |
| KeywordForm.Form.constructor | components/KeywordForm.tsx:58-64 | the name error agrees with the name from the start |
| KeywordForm.Form.HandleChange | components/KeywordForm.tsx:66-72 | the record with one field edited; the name error is recomputed |
| KeywordForm.Form.HandleGeneratePassion | components/KeywordForm.tsx:74-90 | on success only the passion becomes the suggestion; on failure the keywords are kept; either way generation ends |
| ScenarioEditor.ConfirmEnabledIff | components/ScenarioEditor.tsx:45 | confirm is enabled iff not loading and some character is not whitespace |
| ScenarioEditor.Editor.constructor | components/ScenarioEditor.tsx:13 | the buffer starts as the prop |
| ScenarioEditor.Editor.ReceiveProps | components/ScenarioEditor.tsx:15-17 | the buffer is reset to the prop exactly when the prop changed |
| ScenarioEditor.Editor.Edit | components/ScenarioEditor.tsx:34-37 | the textarea, enabled only when not loading, replaces the buffer |
| ScenarioEditor.Editor.Confirm | components/ScenarioEditor.tsx:19-21 | hands over the buffer unchanged, which is never blank when confirm is enabled |

## Left out

- The Gemini SDK and the network are not modelled. Each call is a function in `GeminiService.Environment`, from the request the code builds to a response datatype or a thrown value.
- FileReader and image decoding are not modelled. Each validation completes with an `ImageUploader.Outcome` input: a read failure, a decode failure, or the width and height. In the service, each file read is an input.
- `JSON.parse` of an error message is an input function: the numeric `error.code` it finds, if any.
- Ids built with `Math.random` are not modelled. Ids are fresh numbers, and the `name-lastModified-random` string is not built.
- Asynchrony is not modelled:
  - Each handler and each validation completion is one atomic step. `isLoading` and `isGenerating` are true only inside a step.
  - Concurrent validations may complete in any order, one step each.
  - Stale closures are not modelled: the uploader's captured `imageFiles.length`, and the form's captured `keywords`.
  - A request still in flight after a reset is not modelled.
  - A QR promise that settles after the modal's props change is not modelled.
- `Promise.all` rejects with the first failure in time. The model takes the first failure in list order.
- Rendering is not modelled: JSX, CSS transforms and the float scale and brightness math of the stacked cards, the intro animation timer, and the 2.5 s interval (each tick is a call of `Tick`).
- Browser and library internals are not modelled: the QR library's encoding, the Escape and overlay handlers of the modal, `navigator.share` and `canShare` (they are inputs of `ResultDisplay.Share`), `alert`, and the DOM link of the download.
- `console` logging is not modelled.
- The template texts of `constants.ts` are opaque fields of `GeminiService.Prompts`. So is the negative prompt, which the service imports but the repository does not define.
- `ResultDisplay.LOADING_MESSAGES` copies the constants.
- The special `$` patterns of `String.replace` are not modelled: the replacement text is inserted literally.
- The unused `IMAGE_VARIATION_INSTRUCTION` is not modelled, nor the regeneration call's extra argument, which the service ignores.
- Drag-and-drop state and the hidden file input are not modelled. Both reach the uploader as a batch of files for `AddFiles`.
- After a read failure, the uploader keeps the revoked object URL as the entry's preview, as the code does. Removing the entry then revokes it a second time, which changes nothing in the ledger.
