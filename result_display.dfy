/** components/ResultDisplay.tsx: the cycling loading message, `base64ToBlob`,
    the download and share file name, the share flow's decisions and the
    visibility rules of the result card. */
module ResultDisplay {
  import opened Outcomes
  import opened Text
  import opened Base64
  import DataUrl
  import Modular

  // ---------------------------------------------------------------------------
  // AnimatedLoadingMessage

  /** LOADING_MESSAGES of constants.ts. */
  const LOADING_MESSAGES: seq<string> := [
    "Mescolando i colori del tuo sogno...",
    "Consultando le stelle per l'ispirazione...",
    "Sviluppando il negativo della tua passione...",
    "Riscaldando il motore della creatività...",
    "Disegnando la prima bozza...",
    "Aggiungendo i tocchi finali e magici...",
    "Lucidando i pixel alla perfezione..."]

  predicate Distinct(messages: seq<string>) {
    forall i, j :: 0 <= i < j < |messages| ==> messages[i] != messages[j]
  }

  lemma {:induction false} LoadingMessagesDistinct()
    ensures |LOADING_MESSAGES| == 7 && Distinct(LOADING_MESSAGES)
  {
  }

  /** `messages.indexOf(m)`: the first position holding `m`, or -1. */
  function IndexOfMessage(messages: seq<string>, m: string): (r: int)
    ensures -1 <= r < |messages|
    ensures r >= 0 ==> messages[r] == m && forall j :: 0 <= j < r ==> messages[j] != m
    ensures r == -1 <==> m !in messages
  {
    if messages == [] then -1
    else if messages[0] == m then 0
    else
      var k := IndexOfMessage(messages[1..], m);
      if k == -1 then -1 else k + 1
  }

  /** The message the interval callback moves to: the one after the current
      message's first position, wrapping around; the first one when the current
      message is not in the list (-1 + 1 is 0). */
  function NextMessage(messages: seq<string>, m: string): (next: string)
    requires |messages| > 0
    ensures next in messages
    ensures m !in messages ==> next == messages[0]
  {
    messages[(IndexOfMessage(messages, m) + 1) % |messages|]
  }

  /** The message shown after `t` ticks, starting from `m`. */
  function AfterTicks(messages: seq<string>, m: string, t: nat): string
    requires |messages| > 0
  {
    if t == 0 then m else NextMessage(messages, AfterTicks(messages, m, t - 1))
  }

  /** With distinct messages, the message at position `k` is followed by the one at `k + 1`, wrapping. */
  lemma {:induction false} NextOfDistinct(messages: seq<string>, k: nat)
    requires Distinct(messages) && k < |messages|
    ensures NextMessage(messages, messages[k]) == messages[(k + 1) % |messages|]
  {
    var r := IndexOfMessage(messages, messages[k]);
    assert forall j :: 0 <= j < |messages| && j != k ==> messages[j] != messages[k] by {
      forall j | 0 <= j < |messages| && j != k ensures messages[j] != messages[k] {
        if j < k { assert messages[j] != messages[k]; } else { assert messages[k] != messages[j]; }
      }
    }
  }

  /** Starting from the first message, tick `t` shows message `t mod n`. */
  lemma {:induction false} AfterTicksFromFirst(messages: seq<string>, t: nat)
    requires |messages| > 0 && Distinct(messages)
    ensures AfterTicks(messages, messages[0], t) == messages[t % |messages|]
  {
    var n := |messages|;
    if t > 0 {
      var k := (t - 1) % n;
      AfterTicksFromFirst(messages, t - 1);
      assert AfterTicks(messages, messages[0], t) == NextMessage(messages, messages[k]);
      NextOfDistinct(messages, k);
      Modular.ModSuccessor(t - 1, n);
    } else {
      Modular.ModUnique(0, n, 0, 0);
    }
  }

  /** Every message is shown within the first `n` ticks. */
  lemma {:induction false} EveryMessageVisited(messages: seq<string>, k: nat)
    requires |messages| > 0 && Distinct(messages) && k < |messages|
    ensures AfterTicks(messages, messages[0], k) == messages[k]
  {
    AfterTicksFromFirst(messages, k);
    Modular.ModUnique(k, |messages|, 0, k);
  }

  /** The shown messages repeat with period `n`. */
  lemma {:induction false} MessagesRepeat(messages: seq<string>, t: nat)
    requires |messages| > 0 && Distinct(messages)
    ensures AfterTicks(messages, messages[0], t + |messages|) == AfterTicks(messages, messages[0], t)
  {
    ShownAfterPeriod(messages, t);
    AfterTicksFromFirst(messages, t);
  }

  /** One full period after tick `t`, the message of slot `t mod n` is shown. */
  lemma {:induction false} ShownAfterPeriod(messages: seq<string>, t: nat)
    requires |messages| > 0 && Distinct(messages)
    ensures AfterTicks(messages, messages[0], t + |messages|) == messages[t % |messages|]
  {
    var n := |messages|;
    var later := (t + n) % n;
    assert later == t % n by { Modular.ModAddPeriod(t, n); }
    AfterTicksFromFirst(messages, t + n);
  }

  /** The `message` state of AnimatedLoadingMessage and its interval callback. */
  class LoadingMessage {
    var message: string

    constructor ()
      ensures message == LOADING_MESSAGES[0]
    {
      message := LOADING_MESSAGES[0];
    }

    method Tick()
      modifies this
      ensures message == NextMessage(LOADING_MESSAGES, old(message))
    {
      var currentIndex := IndexOfMessage(LOADING_MESSAGES, message);
      var nextIndex := (currentIndex + 1) % |LOADING_MESSAGES|;
      message := LOADING_MESSAGES[nextIndex];
    }
  }

  /** The seventh tick after mounting shows the first message again, having shown all the others. */
  lemma {:induction false} LoadingMessagesCycle(t: nat)
    ensures AfterTicks(LOADING_MESSAGES, LOADING_MESSAGES[0], t) == LOADING_MESSAGES[t % 7]
  {
    LoadingMessagesDistinct();
    AfterTicksFromFirst(LOADING_MESSAGES, t);
  }

  // ---------------------------------------------------------------------------
  // base64ToBlob

  /** `base64ToBlob`: the split and the content type check, `atob` (its throw
      caught into `null`), then the `Uint8Array` filled one character code at a
      time. */
  method Base64ToBlob(base64: string) returns (blob: Option<DataUrl.Blob>)
    ensures blob == DataUrl.BlobOf(base64)
  {
    var header := DataUrl.Header(base64);
    if header.None? {
      return None;
    }
    var (contentType, payload) := header.value;
    var decoded := Atob(payload);
    if decoded.None? {
      return None;
    }
    var filled := Uint8ArrayOf(decoded.value);
    blob := Some(DataUrl.Blob(DataUrl.BlobType(contentType), filled));
  }

  /** `new Uint8Array(raw.length)` filled with `raw.charCodeAt(i)`, one element at a time. */
  method Uint8ArrayOf(raw: string) returns (bytes: seq<byte>)
    ensures bytes == DataUrl.BytesOf(raw)
  {
    var rawLength := |raw|;
    var uInt8Array := new byte[rawLength];
    for i := 0 to rawLength
      invariant forall k :: 0 <= k < i ==> uInt8Array[k] == DataUrl.ByteOfCode(raw[k])
    {
      uInt8Array[i] := DataUrl.ByteOfCode(raw[i]);
    }
    bytes := uInt8Array[..];
    DataUrl.BytesOfFilled(raw, bytes);
  }

  // ---------------------------------------------------------------------------
  // File name, download and share

  const DEFAULT_FILE_NAME := "passion-portrait.png"

  /** The download and share name: the trimmed name with spaces as underscores
      and `.png` appended, or the default when the name is blank. */
  function DownloadName(fileName: string): (name: string)
    ensures AllWhitespace(fileName) ==> name == DEFAULT_FILE_NAME
    ensures !AllWhitespace(fileName) ==> name == SpacesToUnderscores(Trim(fileName)) + ".png"
    ensures EndsWith(name, ".png")
    ensures forall i :: 0 <= i < |name| ==> name[i] != ' '
  {
    TrimEmptyIff(fileName);
    if Trim(fileName) != "" then SpacesToUnderscores(Trim(fileName)) + ".png"
    else DEFAULT_FILE_NAME
  }

  /** A non-blank name keeps its visible characters: the stem has the trimmed
      name's length, starts and ends with a non-whitespace character, and
      differs from it only where it had a space. */
  lemma {:induction false} DownloadNameStem(fileName: string)
    requires !AllWhitespace(fileName)
    ensures var stem := DownloadName(fileName)[..|DownloadName(fileName)| - 4];
            |stem| == |Trim(fileName)| > 0
            && !IsJsWhitespace(stem[0]) && !IsJsWhitespace(stem[|stem| - 1])
            && forall i :: 0 <= i < |stem| && Trim(fileName)[i] != ' ' ==> stem[i] == Trim(fileName)[i]
  {
    TrimEmptyIff(fileName);
    var t := Trim(fileName);
    var name := DownloadName(fileName);
    assert name[..|name| - 4] == SpacesToUnderscores(t);
  }

  /** The link `handleDownload` clicks. */
  datatype Link = Link(href: string, download: string)

  /** `handleDownload`: nothing without an image; otherwise a link to the image
      under the derived name. */
  function Download(generatedImage: Option<string>, fileName: string): (link: Option<Link>)
    ensures link.None? <==> !Truthy(generatedImage)
    ensures link.Some? ==> link.value == Link(generatedImage.value, DownloadName(fileName))
    ensures link.Some? ==> EndsWith(link.value.download, ".png")
  {
    if !Truthy(generatedImage) then None
    else Some(Link(generatedImage.value, DownloadName(fileName)))
  }

  const SHARE_TITLE := "Il mio Ritratto ImageToPassion"
  const SHARE_TEXT := "Guarda il ritratto che ho creato con ImageToPassion!"
  const SHARE_UNSUPPORTED := "La condivisione non è supportata su questo browser."
  const FILE_SHARE_UNSUPPORTED := "La condivisione di file non è supportata da questo browser."
  const SHARE_FAILED := "Si è verificato un errore durante la condivisione dell'immagine."

  /** The `File` handed to `navigator.share`: name, type and bytes of the blob. */
  datatype SharedFile = SharedFile(name: string, mimeType: string, bytes: seq<byte>)
  datatype ShareData = ShareData(files: seq<SharedFile>, title: string, text: string)

  /** How `navigator.share` settles: fulfilled, rejected with an `Error` of
      some name, or rejected with a value that is not an `Error`. */
  datatype ShareSettlement = Shared | RejectedWithError(name: string) | RejectedWithOther

  /** What `handleShare` ends in: an alert with a message, or no alert. */
  datatype ShareOutcome = Alert(message: string) | Done(data: Option<ShareData>)

  /** The share data built from a converted blob: one `File` named like the
      download, typed `blob.type`, holding the blob's bytes. */
  function ShareDataOf(blob: DataUrl.Blob, fileName: string): (data: ShareData)
    ensures |data.files| == 1 && data.files[0].name == DownloadName(fileName)
    ensures data.files[0].bytes == blob.bytes
    ensures DataUrl.IsNormalType(data.files[0].mimeType)
    ensures data.title == SHARE_TITLE && data.text == SHARE_TEXT
  {
    ShareData([SharedFile(DownloadName(fileName), DataUrl.BlobType(blob.contentType), blob.bytes)], SHARE_TITLE, SHARE_TEXT)
  }

  /** `handleShare`, with `navigator.share`'s presence, `navigator.canShare`
      (false when absent) and the outcome of `navigator.share` as inputs. A
      failed conversion throws an `Error` that the catch block reports; an
      `AbortError` or a non-`Error` rejection is dropped silently. */
  function Share(generatedImage: Option<string>, fileName: string, shareApi: bool,
                 canShare: ShareData -> bool, share: ShareData -> ShareSettlement): (o: ShareOutcome)
    ensures !Truthy(generatedImage) || !shareApi ==> o == Alert(SHARE_UNSUPPORTED)
    ensures Truthy(generatedImage) && shareApi && DataUrl.BlobOf(generatedImage.value).None? ==> o == Alert(SHARE_FAILED)
    ensures Truthy(generatedImage) && shareApi && DataUrl.BlobOf(generatedImage.value).Some? ==>
              var data := ShareDataOf(DataUrl.BlobOf(generatedImage.value).value, fileName);
              (!canShare(data) ==> o == Alert(FILE_SHARE_UNSUPPORTED))
              && (canShare(data) && share(data) == Shared ==> o == Done(Some(data)))
              && (canShare(data) && share(data).RejectedWithError? && share(data).name != "AbortError"
                  ==> o == Alert(SHARE_FAILED))
              && (canShare(data) && share(data) in {RejectedWithError("AbortError"), RejectedWithOther}
                  ==> o == Done(None))
    ensures o.Done? && o.data.Some? ==>
              Truthy(generatedImage) && DataUrl.BlobOf(generatedImage.value).Some?
              && var blob := DataUrl.BlobOf(generatedImage.value).value;
                 o.data.value.files == [SharedFile(DownloadName(fileName), blob.contentType, blob.bytes)]
                 && canShare(o.data.value) && share(o.data.value) == Shared
  {
    if !Truthy(generatedImage) || !shareApi then Alert(SHARE_UNSUPPORTED)
    else match DataUrl.BlobOf(generatedImage.value)
      case None => Alert(SHARE_FAILED)
      case Some(blob) =>
        var data := ShareDataOf(blob, fileName);
        if !canShare(data) then Alert(FILE_SHARE_UNSUPPORTED)
        else match share(data)
          case Shared =>
            ShareKeepsBlobType(generatedImage.value);
            Done(Some(data))
          case RejectedWithError(name) => if name != "AbortError" then Alert(SHARE_FAILED) else Done(None)
          case RejectedWithOther => Done(None)
  }

  /** The shared file carries the blob's own type: the blob's type is already stored. */
  lemma {:induction false} ShareKeepsBlobType(url: string)
    requires DataUrl.BlobOf(url).Some?
    ensures var blob := DataUrl.BlobOf(url).value;
            DataUrl.BlobType(blob.contentType) == blob.contentType
  {
    var header := DataUrl.Header(url).value;
    DataUrl.BlobTypeIdempotent(header.0);
  }

  // ---------------------------------------------------------------------------
  // Visibility

  /** What the result card shows. */
  datatype Card = Card(spinner: bool, placeholder: bool, image: bool, actions: bool, regenerateDisabled: bool)

  /** The conditional parts of the card for the given props: the placeholder
      and the action buttons never show together, the action buttons always
      come with the image, and the regenerate button, shown only when not
      loading, is never disabled. */
  function CardFor(isLoading: bool, generatedImage: Option<string>): (c: Card)
    ensures c.placeholder <==> !isLoading && !Truthy(generatedImage)
    ensures c.actions <==> Truthy(generatedImage) && !isLoading
    ensures !(c.placeholder && c.actions)
    ensures c.actions ==> c.image && !c.regenerateDisabled
    ensures !isLoading ==> (c.placeholder <==> !c.image)
    ensures c.spinner <==> isLoading
    ensures c.image <==> Truthy(generatedImage)
  {
    Card(isLoading, !isLoading && !Truthy(generatedImage), Truthy(generatedImage),
         Truthy(generatedImage) && !isLoading, isLoading)
  }
}
