/** components/ImageUploader.tsx: a list of at most five reference images.
    A batch is truncated to the free capacity and appended as "processing"
    entries, each with a fresh object URL; each validation that completes
    replaces its entry by id and revokes that URL; removal filters by id. After
    every completion and removal, the entries without an error are reported to
    the wizard. FileReader and image decoding are inputs: the outcome each
    validation completes with. Ids are fresh numbers. */
module ImageUploader {
  import opened Outcomes
  import opened Types

  const MAX_IMAGES := 5
  const MIN_DIMENSION := 1024
  const ERROR_TOO_SMALL := "Min 1024px"
  const ERROR_NOT_AN_IMAGE := "File non valido"
  const ERROR_READ := "Errore di lettura"

  // ---------------------------------------------------------------------------
  // Admission

  /** `Array.prototype.slice(0, end)`: a negative end counts from the back. */
  function SliceTo<T>(s: seq<T>, end: int): seq<T> {
    if end >= |s| then s
    else if end >= 0 then s[..end]
    else if |s| + end >= 0 then s[..|s| + end]
    else []
  }

  /** The files of a batch that are taken when `current` images are listed. */
  function Admit(files: seq<File>, current: nat): seq<File> {
    SliceTo(files, MAX_IMAGES - current)
  }

  /** With at most five images listed, a batch of n files admits exactly its
      first min(n, 5 - current) files, so the list never grows past five. */
  lemma {:induction false} AdmitBound(files: seq<File>, current: nat)
    requires current <= MAX_IMAGES
    ensures var admitted := Admit(files, current);
            |admitted| == (if |files| <= MAX_IMAGES - current then |files| else MAX_IMAGES - current)
            && admitted == files[..|admitted|]
            && current + |admitted| <= MAX_IMAGES
  {
  }

  /** A full list admits nothing. */
  lemma {:induction false} AdmitWhenFull(files: seq<File>)
    ensures Admit(files, MAX_IMAGES) == []
  {
  }

  /** An admitted file before validation: its id, the file, its object URL. */
  datatype FileToProcess = FileToProcess(id: nat, file: File, objectUrl: nat)

  /** The batch with consecutive fresh ids and object URLs, in batch order. */
  function ToProcess(files: seq<File>, firstId: nat, firstHandle: nat): (r: seq<FileToProcess>)
    ensures |r| == |files|
    ensures forall k :: 0 <= k < |files| ==> r[k] == FileToProcess(firstId + k, files[k], firstHandle + k)
  {
    if files == [] then [] else [FileToProcess(firstId, files[0], firstHandle)] + ToProcess(files[1..], firstId + 1, firstHandle + 1)
  }

  /** The entry appended for a file to process: its object URL as preview,
      processing, no error. */
  function Processing(p: FileToProcess): ImageFile {
    ImageFile(p.id, p.file, ObjectUrl(p.objectUrl), None, true)
  }

  function ProcessingEntries(ps: seq<FileToProcess>): (r: seq<ImageFile>)
    ensures |r| == |ps|
    ensures forall k :: 0 <= k < |ps| ==> r[k] == Processing(ps[k])
  {
    if ps == [] then [] else [Processing(ps[0])] + ProcessingEntries(ps[1..])
  }

  // ---------------------------------------------------------------------------
  // Validation

  /** How a validation completes: the reader failed, the reader produced a data
      URL that did not decode as an image, or it decoded with these dimensions. */
  datatype Outcome = ReadFailed | DecodeFailed(dataUrl: string) | Decoded(dataUrl: string, width: nat, height: nat)

  /** `Math.max(img.width, img.height) >= 1024` */
  predicate LargeEnough(width: nat, height: nat) {
    (if width >= height then width else height) >= MIN_DIMENSION
  }

  /** The larger side decides: 1024 on either side suffices, 1023 on both does not. */
  lemma {:induction false} LargeEnoughIff(width: nat, height: nat)
    ensures LargeEnough(width, height) <==> width >= MIN_DIMENSION || height >= MIN_DIMENSION
    ensures LargeEnough(MIN_DIMENSION, 1) && LargeEnough(1, MIN_DIMENSION) && !LargeEnough(MIN_DIMENSION - 1, MIN_DIMENSION - 1)
  {
  }

  /** The entry a completed validation produces: the data URL becomes the
      preview unless the read failed, in which case the (now revoked) object
      URL stays; the error says why the image is unusable, if it is. */
  function Validated(p: FileToProcess, outcome: Outcome): (f: ImageFile)
    ensures f.id == p.id && f.file == p.file && !f.isProcessing
    ensures f.error.None? <==> outcome.Decoded? && LargeEnough(outcome.width, outcome.height)
    ensures outcome.Decoded? && !LargeEnough(outcome.width, outcome.height) ==> f.error == Some(ERROR_TOO_SMALL)
    ensures outcome.DecodeFailed? ==> f.error == Some(ERROR_NOT_AN_IMAGE)
    ensures outcome.ReadFailed? ==> f.error == Some(ERROR_READ) && f.previewUrl == ObjectUrl(p.objectUrl)
    ensures !outcome.ReadFailed? ==> f.previewUrl == DataUrl(outcome.dataUrl)
  {
    match outcome
    case ReadFailed => ImageFile(p.id, p.file, ObjectUrl(p.objectUrl), Some(ERROR_READ), false)
    case DecodeFailed(dataUrl) => ImageFile(p.id, p.file, DataUrl(dataUrl), Some(ERROR_NOT_AN_IMAGE), false)
    case Decoded(dataUrl, width, height) =>
      ImageFile(p.id, p.file, DataUrl(dataUrl), if LargeEnough(width, height) then None else Some(ERROR_TOO_SMALL), false)
  }

  // ---------------------------------------------------------------------------
  // The list operations

  predicate UniqueIds(s: seq<ImageFile>) {
    forall i, j :: 0 <= i < j < |s| ==> s[i].id != s[j].id
  }

  /** `currentFiles.map(f => f.id === v.id ? v : f)` */
  function ReplaceById(s: seq<ImageFile>, v: ImageFile): (r: seq<ImageFile>)
    ensures |r| == |s|
    ensures forall i :: 0 <= i < |s| ==> r[i] == (if s[i].id == v.id then v else s[i])
  {
    if s == [] then [] else [if s[0].id == v.id then v else s[0]] + ReplaceById(s[1..], v)
  }

  /** Replacing an id that is not listed changes nothing; with unique ids,
      replacing a listed one changes that one position only. */
  lemma {:induction false} ReplaceByIdEffect(s: seq<ImageFile>, v: ImageFile)
    ensures (forall i :: 0 <= i < |s| ==> s[i].id != v.id) ==> ReplaceById(s, v) == s
    ensures forall k :: 0 <= k < |s| && UniqueIds(s) && s[k].id == v.id ==> ReplaceById(s, v) == s[k := v]
  {
    forall k | 0 <= k < |s| && UniqueIds(s) && s[k].id == v.id
      ensures ReplaceById(s, v) == s[k := v]
    {
      forall i | 0 <= i < |s| && i != k ensures s[i].id != v.id {
        if i < k { assert s[i].id != s[k].id; } else { assert s[k].id != s[i].id; }
      }
    }
  }

  /** A replacement keeping the id keeps every id, so ids stay unique. */
  lemma {:induction false} ReplaceByIdKeepsIds(s: seq<ImageFile>, v: ImageFile)
    requires UniqueIds(s)
    ensures UniqueIds(ReplaceById(s, v))
    ensures forall i :: 0 <= i < |s| ==> ReplaceById(s, v)[i].id == s[i].id
  {
  }

  /** Dropping the first entry keeps ids unique. */
  lemma {:induction false} UniqueIdsTail(s: seq<ImageFile>)
    requires UniqueIds(s) && s != []
    ensures UniqueIds(s[1..])
  {
    var tail := s[1..];
    forall i, j | 0 <= i < j < |tail| ensures tail[i].id != tail[j].id {
      assert tail[i] == s[i + 1] && tail[j] == s[j + 1];
    }
  }

  /** `imageFiles.filter(img => img.id !== id)` */
  function RemoveById(s: seq<ImageFile>, id: nat): (r: seq<ImageFile>)
    ensures |r| <= |s|
  {
    if s == [] then []
    else if s[0].id == id then RemoveById(s[1..], id)
    else [s[0]] + RemoveById(s[1..], id)
  }

  /** The filtered list holds no entry with the id, only entries of the list,
      and every entry with another id. */
  lemma {:induction false} RemoveByIdContents(s: seq<ImageFile>, id: nat)
    ensures var r := RemoveById(s, id);
            (forall i :: 0 <= i < |r| ==> r[i].id != id && r[i] in s)
            && (forall i :: 0 <= i < |s| && s[i].id != id ==> s[i] in r)
  {
    if s != [] {
      var tail := s[1..];
      RemoveByIdContents(tail, id);
      var r, rest := RemoveById(s, id), RemoveById(tail, id);
      forall i | 0 <= i < |r| ensures r[i].id != id && r[i] in s {
        if s[0].id == id {
          assert r[i] == rest[i];
        } else if i > 0 {
          assert r[i] == rest[i - 1];
        }
      }
      forall i | 0 <= i < |s| && s[i].id != id ensures s[i] in r {
        if i > 0 {
          assert s[i] == tail[i - 1];
        }
      }
    }
  }

  /** Filtering an absent id changes nothing. */
  lemma {:induction false} RemoveByIdAbsent(s: seq<ImageFile>, id: nat)
    requires forall i :: 0 <= i < |s| ==> s[i].id != id
    ensures RemoveById(s, id) == s
  {
    if s != [] {
      RemoveByIdAbsent(s[1..], id);
    }
  }

  /** With unique ids, removing the id at position k drops exactly that entry
      and keeps the rest in order. */
  lemma {:induction false} RemoveByIdAt(s: seq<ImageFile>, k: nat)
    requires UniqueIds(s) && k < |s|
    ensures RemoveById(s, s[k].id) == s[..k] + s[k + 1..]
  {
    var id, before, after := s[k].id, s[..k], s[k + 1..];
    assert s == before + ([s[k]] + after);
    forall i | 0 <= i < |before| ensures before[i].id != id {
      assert before[i] == s[i];
    }
    forall i | 0 <= i < |after| ensures after[i].id != id {
      assert after[i] == s[k + 1 + i];
    }
    RemoveByIdAppend(before, [s[k]] + after, id);
    RemoveByIdAbsent(before, id);
    RemoveByIdAbsent(after, id);
    assert ([s[k]] + after)[1..] == after;
  }

  /** Filtering distributes over concatenation. */
  lemma {:induction false} RemoveByIdAppend(a: seq<ImageFile>, b: seq<ImageFile>, id: nat)
    ensures RemoveById(a + b, id) == RemoveById(a, id) + RemoveById(b, id)
  {
    if a != [] {
      assert (a + b)[0] == a[0];
      assert (a + b)[1..] == a[1..] + b;
      RemoveByIdAppend(a[1..], b, id);
    } else {
      assert a + b == b;
    }
  }

  /** `images.filter(img => !img.error)`: the list reported to the wizard. */
  function ErrorFree(s: seq<ImageFile>): (r: seq<ImageFile>)
    ensures |r| <= |s|
    ensures forall i :: 0 <= i < |r| ==> !Truthy(r[i].error) && r[i] in s
    ensures forall i :: 0 <= i < |s| && !Truthy(s[i].error) ==> s[i] in r
  {
    if s == [] then []
    else if Truthy(s[0].error) then ErrorFree(s[1..])
    else [s[0]] + ErrorFree(s[1..])
  }

  /** Filtering distributes over concatenation, so the report keeps the list's order. */
  lemma {:induction false} ErrorFreeAppend(a: seq<ImageFile>, b: seq<ImageFile>)
    ensures ErrorFree(a + b) == ErrorFree(a) + ErrorFree(b)
  {
    if a != [] {
      assert (a + b)[0] == a[0];
      assert (a + b)[1..] == a[1..] + b;
      ErrorFreeAppend(a[1..], b);
    } else {
      assert a + b == b;
    }
  }

  /** A list without errors is reported whole: entries still processing are included. */
  lemma {:induction false} ErrorFreeOfClean(s: seq<ImageFile>)
    requires forall i :: 0 <= i < |s| ==> s[i].error.None?
    ensures ErrorFree(s) == s
  {
    if s != [] {
      ErrorFreeOfClean(s[1..]);
    }
  }

  /** `imageFiles.find(f => f.id === id)` */
  function FindById(s: seq<ImageFile>, id: nat): (r: Option<ImageFile>)
    ensures r.Some? ==> r.value in s && r.value.id == id
    ensures r.None? ==> forall i :: 0 <= i < |s| ==> s[i].id != id
  {
    if s == [] then None else if s[0].id == id then Some(s[0]) else FindById(s[1..], id)
  }

  // ---------------------------------------------------------------------------
  // The component's state

  /** The numbers from `lo` up to, not including, `hi`: the object URLs a batch creates. */
  function Range(lo: nat, hi: nat): (r: set<nat>)
    ensures forall h :: h in r <==> lo <= h < hi
    decreases hi - lo
  {
    if lo >= hi then {} else {lo} + Range(lo + 1, hi)
  }

  lemma {:induction false} RangeSnoc(lo: nat, hi: nat)
    requires lo <= hi
    ensures Range(lo, hi + 1) == Range(lo, hi) + {hi}
  {
  }

  /** The running validations after launching a batch, in order. */
  function Launched(pending: map<nat, FileToProcess>, ps: seq<FileToProcess>): map<nat, FileToProcess> {
    if ps == [] then pending
    else Launched(pending, ps[..|ps| - 1])[ps[|ps| - 1].id := ps[|ps| - 1]]
  }

  /** Launching a batch of fresh consecutive ids adds exactly those entries
      and keeps every validation already running. */
  lemma {:induction false} LaunchedContents(pending: map<nat, FileToProcess>, ps: seq<FileToProcess>, firstId: nat)
    requires forall id :: id in pending ==> id < firstId
    requires forall k :: 0 <= k < |ps| ==> ps[k].id == firstId + k
    ensures var r := Launched(pending, ps);
            (forall id :: id in r <==> id in pending || firstId <= id < firstId + |ps|)
            && (forall id :: id in pending ==> r[id] == pending[id])
            && (forall k :: 0 <= k < |ps| ==> r[ps[k].id] == ps[k])
  {
    if ps != [] {
      var init := ps[..|ps| - 1];
      LaunchedContents(pending, init, firstId);
      var r := Launched(pending, ps);
      var last := ps[|ps| - 1];
      assert r == Launched(pending, init)[last.id := last];
    }
  }

  /** The object URLs of validations still running. */
  ghost function PendingUrls(pending: map<nat, FileToProcess>): set<nat> {
    set id | id in pending :: pending[id].objectUrl
  }

  /** The uploader's invariant, over its state: at most five entries with
      unique ids below the next id; each running validation is filed under its
      own id, with an object URL below the next handle; each processing entry
      shows the object URL of its running validation; running validations have
      distinct object URLs, and every live object URL belongs to one. */
  ghost predicate Consistent(imageFiles: seq<ImageFile>, pending: map<nat, FileToProcess>, live: set<nat>,
                             nextId: nat, nextHandle: nat)
  {
    |imageFiles| <= MAX_IMAGES
    && UniqueIds(imageFiles)
    && (forall i :: 0 <= i < |imageFiles| ==> imageFiles[i].id < nextId)
    && (forall id :: id in pending ==> pending[id].id == id && id < nextId && pending[id].objectUrl < nextHandle)
    && (forall i :: 0 <= i < |imageFiles| && imageFiles[i].isProcessing ==>
          imageFiles[i].id in pending && imageFiles[i].previewUrl == ObjectUrl(pending[imageFiles[i].id].objectUrl))
    && (forall a, b :: a in pending && b in pending && a != b ==> pending[a].objectUrl != pending[b].objectUrl)
    && live <= PendingUrls(pending)
  }

  /** Once no validation is running, no object URL of the uploader is live. */
  lemma {:induction false} NoPendingNoLiveUrls(imageFiles: seq<ImageFile>, live: set<nat>, nextId: nat, nextHandle: nat)
    requires Consistent(imageFiles, map[], live, nextId, nextHandle)
    ensures live == {}
    ensures forall i :: 0 <= i < |imageFiles| ==> !imageFiles[i].isProcessing
  {
  }

  class Uploader {
    /** The `imageFiles` state. */
    var imageFiles: seq<ImageFile>
    /** The last list handed to `onImagesChange`. */
    var reported: seq<ImageFile>
    /** The validations launched and not yet completed, by id. */
    var pending: map<nat, FileToProcess>
    /** The ledger of object URLs created and not yet revoked. */
    var liveObjectUrls: set<nat>
    var nextId: nat
    var nextHandle: nat

    ghost predicate Valid()
      reads this
    {
      Consistent(imageFiles, pending, liveObjectUrls, nextId, nextHandle)
    }

    constructor ()
      ensures Valid() && imageFiles == [] && reported == [] && liveObjectUrls == {} && pending == map[]
    {
      imageFiles := [];
      reported := [];
      pending := map[];
      liveObjectUrls := {};
      nextId := 0;
      nextHandle := 0;
    }

    /** `validateAndAddFiles`: truncate the batch, create an object URL per
        admitted file, append the entries as processing, launch one validation
        per entry. Nothing is reported to the wizard yet. */
    method AddFiles(files: seq<File>)
      requires Valid()
      modifies this
      ensures Valid()
      ensures var admitted := Admit(files, |old(imageFiles)|);
              imageFiles == old(imageFiles) + ProcessingEntries(ToProcess(admitted, old(nextId), old(nextHandle)))
              && liveObjectUrls == old(liveObjectUrls) + Range(old(nextHandle), old(nextHandle) + |admitted|)
              && pending == Launched(old(pending), ToProcess(admitted, old(nextId), old(nextHandle)))
              && nextId == old(nextId) + |admitted| && nextHandle == old(nextHandle) + |admitted|
      ensures reported == old(reported)
    {
      var newFiles := Admit(files, |imageFiles|);
      AdmitBound(files, |imageFiles|);
      if |newFiles| == 0 {
        return;
      }
      AppendBatch(newFiles);
    }

    /** The rest of `validateAndAddFiles` once the admitted batch is non-empty:
        object URLs, processing entries, validations. */
    method AppendBatch(newFiles: seq<File>)
      requires Valid() && |imageFiles| + |newFiles| <= MAX_IMAGES
      modifies this
      ensures Valid()
      ensures imageFiles == old(imageFiles) + ProcessingEntries(ToProcess(newFiles, old(nextId), old(nextHandle)))
              && liveObjectUrls == old(liveObjectUrls) + Range(old(nextHandle), old(nextHandle) + |newFiles|)
              && pending == Launched(old(pending), ToProcess(newFiles, old(nextId), old(nextHandle)))
              && nextId == old(nextId) + |newFiles| && nextHandle == old(nextHandle) + |newFiles|
      ensures reported == old(reported)
    {
      ghost var firstId, firstHandle := nextId, nextHandle;
      var filesToProcess := CreateObjectUrls(newFiles);
      imageFiles := imageFiles + ProcessingEntries(filesToProcess);
      LaunchValidations(filesToProcess);
      AddedConsistent(old(imageFiles), old(pending), old(liveObjectUrls), firstId, firstHandle, filesToProcess);
    }

    /** `newFiles.map(...)`: a fresh id and a fresh object URL per file, in order. */
    method CreateObjectUrls(newFiles: seq<File>) returns (filesToProcess: seq<FileToProcess>)
      modifies this
      ensures filesToProcess == ToProcess(newFiles, old(nextId), old(nextHandle))
      ensures nextId == old(nextId) + |newFiles| && nextHandle == old(nextHandle) + |newFiles|
      ensures liveObjectUrls == old(liveObjectUrls) + Range(old(nextHandle), nextHandle)
      ensures imageFiles == old(imageFiles) && pending == old(pending) && reported == old(reported)
    {
      ghost var firstId, firstHandle := nextId, nextHandle;
      var id, handle, created := nextId, nextHandle, liveObjectUrls;
      filesToProcess := [];
      for i := 0 to |newFiles|
        invariant id == firstId + i && handle == firstHandle + i
        invariant filesToProcess == ToProcess(newFiles[..i], firstId, firstHandle)
        invariant created == old(liveObjectUrls) + Range(firstHandle, handle)
        invariant unchanged(this)
      {
        var objectUrl := handle;
        handle := handle + 1;
        created := created + {objectUrl};
        RangeSnoc(firstHandle, objectUrl);
        assert newFiles[..i + 1] == newFiles[..i] + [newFiles[i]];
        ToProcessSnoc(newFiles[..i], newFiles[i], firstId, firstHandle);
        filesToProcess := filesToProcess + [FileToProcess(id, newFiles[i], objectUrl)];
        id := id + 1;
      }
      assert newFiles[..|newFiles|] == newFiles;
      nextId, nextHandle, liveObjectUrls := id, handle, created;
    }

    /** `filesToProcess.forEach(...)`: start one validation per file, in order. */
    method LaunchValidations(filesToProcess: seq<FileToProcess>)
      modifies this
      ensures pending == Launched(old(pending), filesToProcess)
      ensures imageFiles == old(imageFiles) && reported == old(reported) && liveObjectUrls == old(liveObjectUrls)
      ensures nextId == old(nextId) && nextHandle == old(nextHandle)
    {
      for i := 0 to |filesToProcess|
        invariant pending == Launched(old(pending), filesToProcess[..i])
        invariant imageFiles == old(imageFiles) && reported == old(reported) && liveObjectUrls == old(liveObjectUrls)
        invariant nextId == old(nextId) && nextHandle == old(nextHandle)
      {
        assert filesToProcess[..i + 1] == filesToProcess[..i] + [filesToProcess[i]];
        pending := pending[filesToProcess[i].id := filesToProcess[i]];
      }
      assert filesToProcess[..|filesToProcess|] == filesToProcess;
    }

    /** One validation completes: its entry, if still listed, is replaced by
        the validated one; the error-free list is reported; its object URL is
        revoked on every path. */
    method CompleteValidation(id: nat, outcome: Outcome)
      requires Valid() && id in pending
      modifies this
      ensures Valid()
      ensures imageFiles == ReplaceById(old(imageFiles), Validated(old(pending)[id], outcome))
      ensures reported == ErrorFree(imageFiles)
      ensures liveObjectUrls == old(liveObjectUrls) - {old(pending)[id].objectUrl}
      ensures pending == old(pending) - {id}
    {
      var fileToProcess := pending[id];
      var validatedFile := Validated(fileToProcess, outcome);
      var updated := ReplaceById(imageFiles, validatedFile);
      CompletedConsistent(imageFiles, pending, liveObjectUrls, nextId, nextHandle, id, outcome);
      reported := ErrorFree(updated);
      imageFiles := updated;
      liveObjectUrls := liveObjectUrls - {fileToProcess.objectUrl};
      pending := pending - {id};
    }

    /** `removeImage`: revoke the preview if it is still an object URL, drop
        every entry with that id, report the error-free rest. */
    method RemoveImage(id: nat)
      requires Valid()
      modifies this
      ensures Valid()
      ensures imageFiles == RemoveById(old(imageFiles), id)
      ensures reported == ErrorFree(imageFiles)
      ensures var found := FindById(old(imageFiles), id);
              liveObjectUrls == if found.Some? && found.value.previewUrl.IsBlobUrl()
                                then old(liveObjectUrls) - {found.value.previewUrl.handle}
                                else old(liveObjectUrls)
      ensures pending == old(pending)
    {
      var fileToRemove := FindById(imageFiles, id);
      if fileToRemove.Some? && fileToRemove.value.previewUrl.IsBlobUrl() {
        liveObjectUrls := liveObjectUrls - {fileToRemove.value.previewUrl.handle};
      }
      var newImages := RemoveById(imageFiles, id);
      RemoveByIdKeepsValid(imageFiles, id, pending, nextId);
      imageFiles := newImages;
      reported := ErrorFree(newImages);
    }
  }

  lemma {:induction false} ToProcessSnoc(files: seq<File>, f: File, firstId: nat, firstHandle: nat)
    ensures ToProcess(files + [f], firstId, firstHandle)
            == ToProcess(files, firstId, firstHandle) + [FileToProcess(firstId + |files|, f, firstHandle + |files|)]
  {
    var l := ToProcess(files + [f], firstId, firstHandle);
    var r := ToProcess(files, firstId, firstHandle) + [FileToProcess(firstId + |files|, f, firstHandle + |files|)];
    assert |l| == |r|;
    forall k | 0 <= k < |l| ensures l[k] == r[k] {
      assert (files + [f])[k] == if k < |files| then files[k] else f;
    }
  }

  /** Removing entries keeps the list's invariants. */
  lemma {:induction false} RemoveByIdKeepsValid(s: seq<ImageFile>, id: nat, pending: map<nat, FileToProcess>, nextId: nat)
    requires UniqueIds(s)
    requires forall i :: 0 <= i < |s| ==> s[i].id < nextId
    requires forall i :: 0 <= i < |s| && s[i].isProcessing ==>
               s[i].id in pending && s[i].previewUrl == ObjectUrl(pending[s[i].id].objectUrl)
    ensures var r := RemoveById(s, id);
            UniqueIds(r)
            && (forall i :: 0 <= i < |r| ==> r[i].id < nextId)
            && (forall i :: 0 <= i < |r| && r[i].isProcessing ==>
                  r[i].id in pending && r[i].previewUrl == ObjectUrl(pending[r[i].id].objectUrl))
  {
    if s != [] {
      var tail := s[1..];
      UniqueIdsTail(s);
      RemoveByIdKeepsValid(tail, id, pending, nextId);
      RemoveByIdContents(tail, id);
      RemoveByIdOmitsHead(s, id);
    }
  }

  /** With unique ids, what filtering leaves of the tail never has the head's id. */
  lemma {:induction false} RemoveByIdOmitsHead(s: seq<ImageFile>, id: nat)
    requires UniqueIds(s) && s != []
    ensures forall i :: 0 <= i < |RemoveById(s[1..], id)| ==> RemoveById(s[1..], id)[i].id != s[0].id
  {
    var tail := s[1..];
    var rest := RemoveById(tail, id);
    RemoveByIdContents(tail, id);
    forall i | 0 <= i < |rest| ensures rest[i].id != s[0].id {
      var j :| 0 <= j < |tail| && tail[j] == rest[i];
      assert s[j + 1] == rest[i];
    }
  }

  /** A completion keeps the invariant. */
  lemma {:induction false} CompletedConsistent(files: seq<ImageFile>, pending: map<nat, FileToProcess>, live: set<nat>,
                            nextId: nat, nextHandle: nat, id: nat, outcome: Outcome)
    requires Consistent(files, pending, live, nextId, nextHandle) && id in pending
    ensures Consistent(ReplaceById(files, Validated(pending[id], outcome)), pending - {id},
                       live - {pending[id].objectUrl}, nextId, nextHandle)
  {
    var v := Validated(pending[id], outcome);
    var updated := ReplaceById(files, v);
    var rest := pending - {id};
    ReplaceByIdKeepsIds(files, v);
    forall i | 0 <= i < |updated| && updated[i].isProcessing
      ensures updated[i].id in rest && updated[i].previewUrl == ObjectUrl(rest[updated[i].id].objectUrl)
    {
      assert files[i].id != id;
    }
    forall h | h in live - {pending[id].objectUrl} ensures h in PendingUrls(rest) {
      var other :| other in pending && pending[other].objectUrl == h;
      assert other != id;
      assert other in rest && rest[other].objectUrl == h;
    }
  }

  /** Appending a launched batch keeps the invariant. */
  lemma {:induction false} AddedConsistent(files: seq<ImageFile>, pending: map<nat, FileToProcess>, live: set<nat>,
                        firstId: nat, firstHandle: nat, added: seq<FileToProcess>)
    requires Consistent(files, pending, live, firstId, firstHandle)
    requires |files| + |added| <= MAX_IMAGES
    requires forall k :: 0 <= k < |added| ==> added[k].id == firstId + k && added[k].objectUrl == firstHandle + k
    ensures Consistent(files + ProcessingEntries(added), Launched(pending, added),
                       live + Range(firstHandle, firstHandle + |added|), firstId + |added|, firstHandle + |added|)
  {
    AppendedIdsUnique(files, added, firstId);
    LaunchedEntries(pending, firstId, firstHandle, added);
    AppendedPreviews(files, pending, added, firstId);
    LaunchedLive(pending, live, firstId, firstHandle, added);
  }

  /** The running validations after a launch are filed under their ids, below
      the next id and handle, with distinct object URLs. */
  lemma {:induction false} LaunchedEntries(pending: map<nat, FileToProcess>, firstId: nat, firstHandle: nat, added: seq<FileToProcess>)
    requires forall id :: id in pending ==> pending[id].id == id && id < firstId && pending[id].objectUrl < firstHandle
    requires forall a, b :: a in pending && b in pending && a != b ==> pending[a].objectUrl != pending[b].objectUrl
    requires forall k :: 0 <= k < |added| ==> added[k].id == firstId + k && added[k].objectUrl == firstHandle + k
    ensures var launched := Launched(pending, added);
            (forall id :: id in launched ==>
               launched[id].id == id && id < firstId + |added| && launched[id].objectUrl < firstHandle + |added|)
            && (forall a, b :: a in launched && b in launched && a != b ==> launched[a].objectUrl != launched[b].objectUrl)
  {
    var launched := Launched(pending, added);
    LaunchedContents(pending, added, firstId);
    forall id | id in launched
      ensures launched[id].id == id && id < firstId + |added| && launched[id].objectUrl < firstHandle + |added|
    {
      if id !in pending {
        assert added[id - firstId].id == id;
      }
    }
    forall a, b | a in launched && b in launched && a != b
      ensures launched[a].objectUrl != launched[b].objectUrl
    {
      if a !in pending {
        assert added[a - firstId].id == a;
      }
      if b !in pending {
        assert added[b - firstId].id == b;
      }
    }
  }

  /** After appending, every processing entry shows the object URL of its running validation. */
  lemma {:induction false} AppendedPreviews(files: seq<ImageFile>, pending: map<nat, FileToProcess>, added: seq<FileToProcess>, firstId: nat)
    requires forall id :: id in pending ==> id < firstId
    requires forall i :: 0 <= i < |files| && files[i].isProcessing ==>
               files[i].id in pending && files[i].previewUrl == ObjectUrl(pending[files[i].id].objectUrl)
    requires forall k :: 0 <= k < |added| ==> added[k].id == firstId + k
    ensures var s := files + ProcessingEntries(added);
            var launched := Launched(pending, added);
            forall i :: 0 <= i < |s| && s[i].isProcessing ==>
              s[i].id in launched && s[i].previewUrl == ObjectUrl(launched[s[i].id].objectUrl)
  {
    var s := files + ProcessingEntries(added);
    var launched := Launched(pending, added);
    LaunchedContents(pending, added, firstId);
    forall i | 0 <= i < |s| && s[i].isProcessing
      ensures s[i].id in launched && s[i].previewUrl == ObjectUrl(launched[s[i].id].objectUrl)
    {
      if i >= |files| {
        assert s[i] == Processing(added[i - |files|]);
      } else {
        assert s[i] == files[i];
      }
    }
  }

  /** The new object URLs and the old live ones all belong to running validations. */
  lemma {:induction false} LaunchedLive(pending: map<nat, FileToProcess>, live: set<nat>, firstId: nat, firstHandle: nat,
                     added: seq<FileToProcess>)
    requires forall id :: id in pending ==> id < firstId
    requires live <= PendingUrls(pending)
    requires forall k :: 0 <= k < |added| ==> added[k].id == firstId + k && added[k].objectUrl == firstHandle + k
    ensures live + Range(firstHandle, firstHandle + |added|) <= PendingUrls(Launched(pending, added))
  {
    var launched := Launched(pending, added);
    LaunchedContents(pending, added, firstId);
    forall h | h in live + Range(firstHandle, firstHandle + |added|) ensures h in PendingUrls(launched) {
      if h in live {
        var id :| id in pending && pending[id].objectUrl == h;
        assert launched[id].objectUrl == h;
      } else {
        var k := h - firstHandle;
        assert launched[added[k].id].objectUrl == h;
      }
    }
  }

  /** Appending entries with fresh consecutive ids keeps ids unique and below the next id. */
  lemma {:induction false} AppendedIdsUnique(files: seq<ImageFile>, added: seq<FileToProcess>, firstId: nat)
    requires UniqueIds(files)
    requires forall i :: 0 <= i < |files| ==> files[i].id < firstId
    requires forall k :: 0 <= k < |added| ==> added[k].id == firstId + k
    ensures var s := files + ProcessingEntries(added);
            UniqueIds(s) && forall i :: 0 <= i < |s| ==> s[i].id < firstId + |added|
  {
    var s := files + ProcessingEntries(added);
    forall i | 0 <= i < |s| ensures s[i].id < firstId + |added| && (i >= |files| ==> s[i].id == firstId + (i - |files|)) {
      if i >= |files| {
        assert s[i] == Processing(added[i - |files|]);
      } else {
        assert s[i] == files[i];
      }
    }
  }
}
