/** The records of types.ts, plus the browser `File` fields the application reads. */
module Types {
  import opened Outcomes

  /** The two free-text fields of the input form. */
  datatype Keywords = Keywords(passion: string, name: string)

  const EmptyKeywords := Keywords("", "")

  /** A picked or dropped file: its name, modification time and MIME type (`file.type`);
      its bytes are only reachable through a reader outcome. */
  datatype File = File(name: string, lastModified: int, mimeType: string)

  /** An image preview: a `blob:` object URL (a handle in the ledger of live
      object URLs) or the `data:` URL a FileReader produced. */
  datatype Preview = ObjectUrl(handle: nat) | DataUrl(url: string) {
    /** `previewUrl.startsWith('blob:')` */
    predicate IsBlobUrl() { ObjectUrl? }
  }

  /** An uploaded reference image; `id` stands for the unique string the uploader builds. */
  datatype ImageFile = ImageFile(id: nat, file: File, previewUrl: Preview, error: Option<string>, isProcessing: bool)

  function Files(images: seq<ImageFile>): (files: seq<File>)
    ensures |files| == |images|
    ensures forall i :: 0 <= i < |images| ==> files[i] == images[i].file
  {
    if images == [] then [] else [images[0].file] + Files(images[1..])
  }
}
