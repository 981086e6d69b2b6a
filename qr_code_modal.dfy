/** components/QrCodeModal.tsx: the modal's copy of `base64ToBlob`, the effect
    that turns the image into an object URL for the QR code, its cleanup, and
    what the modal renders. Object URLs are handles in a ledger of live URLs;
    the QR library's promise is settled by a separate step. */
module QrCodeModal {
  import opened Outcomes
  import opened Base64
  import DataUrl

  /** The modal's own `base64ToBlob`, which repeats the one in ResultDisplay.tsx
      and meets the same specification. */
  method Base64ToBlob(base64: string) returns (blob: Option<DataUrl.Blob>)
    ensures blob == DataUrl.BlobOf(base64)
  {
    var header := DataUrl.Header(base64);
    if header.None? {
      return None;
    }
    var (contentType, payload) := header.value;
    var decoded := Atob(payload);
    if decoded.None? {
      return None;
    }
    var filled := Uint8ArrayOf(decoded.value);
    blob := Some(DataUrl.Blob(DataUrl.BlobType(contentType), filled));
  }

  /** `new Uint8Array(raw.length)` filled with `raw.charCodeAt(i)`, one element at a time. */
  method Uint8ArrayOf(raw: string) returns (bytes: seq<byte>)
    ensures bytes == DataUrl.BytesOf(raw)
  {
    var rawLength := |raw|;
    var uInt8Array := new byte[rawLength];
    for i := 0 to rawLength
      invariant forall k :: 0 <= k < i ==> uInt8Array[k] == DataUrl.ByteOfCode(raw[k])
    {
      uInt8Array[i] := DataUrl.ByteOfCode(raw[i]);
    }
    bytes := uInt8Array[..];
    DataUrl.BytesOfFilled(raw, bytes);
  }

  /** What the modal renders: nothing, or the dialog with exactly one of the
      spinner, the QR image and the failure text. */
  datatype View = Hidden | Dialog(spinner: bool, qrImage: Option<string>, failureText: bool)

  /** The render of the modal for its state. */
  function ViewOf(isOpen: bool, isLoading: bool, qrCodeDataUrl: string): (v: View)
    ensures v.Hidden? <==> !isOpen
    ensures v.Dialog? ==> (v.spinner <==> isLoading)
    ensures v.Dialog? ==> (v.qrImage.Some? <==> !isLoading && qrCodeDataUrl != "")
    ensures v.Dialog? && v.qrImage.Some? ==> v.qrImage.value == qrCodeDataUrl
    ensures v.Dialog? ==> (v.failureText <==> !isLoading && qrCodeDataUrl == "")
    ensures v.Dialog? ==> (if v.spinner then 1 else 0) + (if v.qrImage.Some? then 1 else 0)
                          + (if v.failureText then 1 else 0) == 1
  {
    if !isOpen then Hidden
    else Dialog(isLoading, if !isLoading && qrCodeDataUrl != "" then Some(qrCodeDataUrl) else None,
                !isLoading && qrCodeDataUrl == "")
  }

  /** The modal's state and the object URLs it has created. `cleanupRegistered`
      says whether the last run of the effect returned its cleanup function. */
  class Modal {
    var isOpen: bool
    var imageUrl: Option<string>
    var qrCodeDataUrl: string
    var isLoading: bool
    var objectUrlRef: Option<nat>
    var cleanupRegistered: bool
    var liveObjectUrls: set<nat>
    var nextHandle: nat

    /** The only live object URL is the one in the ref, and a cleanup is
        registered exactly when the ref holds one. */
    ghost predicate Valid()
      reads this
    {
      liveObjectUrls == (if objectUrlRef.Some? then {objectUrlRef.value} else {})
      && (objectUrlRef.Some? ==> objectUrlRef.value < nextHandle)
      && (cleanupRegistered <==> objectUrlRef.Some?)
    }

    function Render(): (v: View)
      reads this
      ensures v.Hidden? <==> !isOpen
    {
      ViewOf(isOpen, isLoading, qrCodeDataUrl)
    }

    /** Mounting: the initial state, then the first run of the effect. */
    constructor (isOpen: bool, imageUrl: Option<string>)
      ensures Valid() && this.isOpen == isOpen && this.imageUrl == imageUrl
      ensures !isOpen || !Truthy(imageUrl) ==>
                qrCodeDataUrl == "" && isLoading && objectUrlRef == None
      ensures isOpen && Truthy(imageUrl) && DataUrl.BlobOf(imageUrl.value).None? ==>
                qrCodeDataUrl == "" && !isLoading && objectUrlRef == None
      ensures isOpen && Truthy(imageUrl) && DataUrl.BlobOf(imageUrl.value).Some? ==>
                qrCodeDataUrl == "" && isLoading && objectUrlRef == Some(0) && liveObjectUrls == {0}
    {
      this.isOpen := isOpen;
      this.imageUrl := imageUrl;
      qrCodeDataUrl := "";
      isLoading := true;
      objectUrlRef := None;
      cleanupRegistered := false;
      liveObjectUrls := {};
      nextHandle := 0;
      new;
      Effect();
    }

    /** The effect body for the current props, run with no cleanup pending. */
    method Effect()
      requires Valid() && !cleanupRegistered
      modifies this
      ensures Valid() && isOpen == old(isOpen) && imageUrl == old(imageUrl)
      ensures !isOpen || !Truthy(imageUrl) ==>
                qrCodeDataUrl == "" && isLoading && objectUrlRef == None && liveObjectUrls == {}
                && nextHandle == old(nextHandle)
      ensures isOpen && Truthy(imageUrl) && DataUrl.BlobOf(imageUrl.value).None? ==>
                qrCodeDataUrl == "" && !isLoading && objectUrlRef == None && liveObjectUrls == {}
                && nextHandle == old(nextHandle)
      ensures isOpen && Truthy(imageUrl) && DataUrl.BlobOf(imageUrl.value).Some? ==>
                qrCodeDataUrl == old(qrCodeDataUrl) && isLoading
                && objectUrlRef == Some(old(nextHandle)) && liveObjectUrls == {old(nextHandle)}
                && nextHandle == old(nextHandle) + 1
    {
      if !isOpen || !Truthy(imageUrl) {
        qrCodeDataUrl := "";
        isLoading := true;
        return;
      }
      isLoading := true;
      var blob := Base64ToBlob(imageUrl.value);
      if blob.None? {
        qrCodeDataUrl := "";
        isLoading := false;
        return;
      }
      var objectUrl := nextHandle;
      nextHandle := nextHandle + 1;
      liveObjectUrls := liveObjectUrls + {objectUrl};
      objectUrlRef := Some(objectUrl);
      cleanupRegistered := true;
    }

    /** The cleanup the last effect returned, if any: revoke the URL in the
        ref and clear the ref. */
    method Cleanup()
      requires Valid()
      modifies this
      ensures Valid() && !cleanupRegistered && objectUrlRef == None && liveObjectUrls == {}
      ensures isOpen == old(isOpen) && imageUrl == old(imageUrl) && qrCodeDataUrl == old(qrCodeDataUrl)
              && isLoading == old(isLoading) && nextHandle == old(nextHandle)
    {
      if cleanupRegistered {
        if objectUrlRef.Some? {
          liveObjectUrls := liveObjectUrls - {objectUrlRef.value};
          objectUrlRef := None;
        }
        cleanupRegistered := false;
      }
    }

    /** A render with new props: when `isOpen` or `imageUrl` changed, React
        runs the previous cleanup and then the effect; otherwise nothing runs. */
    method Update(isOpen: bool, imageUrl: Option<string>)
      requires Valid()
      modifies this
      ensures Valid() && this.isOpen == isOpen && this.imageUrl == imageUrl
      ensures isOpen == old(this.isOpen) && imageUrl == old(this.imageUrl) ==>
                qrCodeDataUrl == old(qrCodeDataUrl) && isLoading == old(isLoading)
                && objectUrlRef == old(objectUrlRef) && liveObjectUrls == old(liveObjectUrls)
      ensures old(objectUrlRef).Some? && (isOpen != old(this.isOpen) || imageUrl != old(this.imageUrl)) ==>
                old(objectUrlRef).value !in liveObjectUrls
      ensures (isOpen != old(this.isOpen) || imageUrl != old(this.imageUrl)) && (!isOpen || !Truthy(imageUrl)) ==>
                qrCodeDataUrl == "" && isLoading && objectUrlRef == None && liveObjectUrls == {}
      ensures (isOpen != old(this.isOpen) || imageUrl != old(this.imageUrl)) && isOpen && Truthy(imageUrl)
              && DataUrl.BlobOf(imageUrl.value).None? ==>
                qrCodeDataUrl == "" && !isLoading && objectUrlRef == None && liveObjectUrls == {}
      ensures (isOpen != old(this.isOpen) || imageUrl != old(this.imageUrl)) && isOpen && Truthy(imageUrl)
              && DataUrl.BlobOf(imageUrl.value).Some? ==>
                qrCodeDataUrl == old(qrCodeDataUrl) && isLoading
                && objectUrlRef == Some(old(nextHandle)) && liveObjectUrls == {old(nextHandle)}
    {
      if isOpen == this.isOpen && imageUrl == this.imageUrl {
        return;
      }
      Cleanup();
      this.isOpen := isOpen;
      this.imageUrl := imageUrl;
      Effect();
    }

    /** `QRCode.toDataURL` settles: its data URL on success, '' on failure,
        and the spinner stops either way. */
    method QrSettled(generated: Option<string>)
      requires Valid()
      modifies this
      ensures Valid() && qrCodeDataUrl == generated.GetOr("") && !isLoading
      ensures isOpen == old(isOpen) && imageUrl == old(imageUrl) && objectUrlRef == old(objectUrlRef)
              && liveObjectUrls == old(liveObjectUrls) && cleanupRegistered == old(cleanupRegistered)
              && nextHandle == old(nextHandle)
    {
      qrCodeDataUrl := generated.GetOr("");
      isLoading := false;
    }

    /** Unmounting runs the pending cleanup: no object URL of the modal stays live. */
    method Unmount()
      requires Valid()
      modifies this
      ensures Valid() && liveObjectUrls == {} && objectUrlRef == None
    {
      Cleanup();
    }
  }
}
