/** The client-side selection list of the uploader (`FileUploader.tsx`):
    dropping files (with the tier size limit), removing one, and the
    sequential upload loop that stops at the first failure. The server's
    answer to each request is an input: one outcome per file, in order. */
module FileUploader {
  import Seqs

  /** A browser `File` as the drop zone hands it over. */
  datatype LocalFile = LocalFile(name: string, size: nat, mimeType: string)

  /** The `FormData` posted for one file. */
  datatype UploadForm = UploadForm(file: LocalFile, userId: string)

  /** How one `XMLHttpRequest` ended: loaded with a status, or `onerror`. */
  datatype XhrOutcome = Loaded(status: int) | NetworkError

  predicate Succeeded(o: XhrOutcome) {
    o.Loaded? && 200 <= o.status < 300
  }

  /** What the user is told when the loop ends. */
  datatype UploadReport =
    | NothingToUpload
    | AllUploaded(count: nat)
    | UploadFailed(uploaded: nat, failure: XhrOutcome)

  const MiB: nat := 1024 * 1024
  const GiB: nat := 1024 * 1024 * 1024

  /** `maxSize` (FileUploader.tsx:26). */
  function MaxSize(isPro: bool): (limit: nat)
    ensures limit == if isPro then 2 * GiB else 100 * MiB
    ensures limit > 0
  {
    if isPro then 2 * 1024 * 1024 * 1024 else 100 * 1024 * 1024
  }

  predicate WithinLimit(isPro: bool, f: LocalFile) { f.size <= MaxSize(isPro) }
  predicate OverLimit(isPro: bool, f: LocalFile) { f.size > MaxSize(isPro) }

  /** `validFiles` (FileUploader.tsx:28). */
  function ValidFiles(accepted: seq<LocalFile>, isPro: bool): (valid: seq<LocalFile>)
    ensures forall f :: f in valid <==> f in accepted && f.size <= MaxSize(isPro)
  {
    Seqs.Filter((f: LocalFile) => WithinLimit(isPro, f), accepted)
  }

  /** `invalidFiles` (FileUploader.tsx:29). */
  function InvalidFiles(accepted: seq<LocalFile>, isPro: bool): (invalid: seq<LocalFile>)
    ensures forall f :: f in invalid <==> f in accepted && f.size > MaxSize(isPro)
  {
    Seqs.Filter((f: LocalFile) => OverLimit(isPro, f), accepted)
  }

  /** The two lists split the dropped files without loss or duplication,
      and each keeps the order of the drop. */
  lemma DropPartitions(accepted: seq<LocalFile>, isPro: bool)
    ensures multiset(ValidFiles(accepted, isPro)) + multiset(InvalidFiles(accepted, isPro)) == multiset(accepted)
    ensures Seqs.IsSubsequence(ValidFiles(accepted, isPro), accepted)
    ensures Seqs.IsSubsequence(InvalidFiles(accepted, isPro), accepted)
  {
    Seqs.FilterPartition((f: LocalFile) => WithinLimit(isPro, f), (f: LocalFile) => OverLimit(isPro, f), accepted);
    Seqs.FilterIsSubsequence((f: LocalFile) => WithinLimit(isPro, f), accepted);
    Seqs.FilterIsSubsequence((f: LocalFile) => OverLimit(isPro, f), accepted);
  }

  /** A file of exactly the limit is accepted; one byte more is refused. */
  lemma LimitIsInclusive(f: LocalFile, isPro: bool)
    requires f.size == MaxSize(isPro)
    ensures ValidFiles([f], isPro) == [f]
    ensures ValidFiles([f.(size := f.size + 1)], isPro) == []
  {
  }

  /** The selection after a drop (FileUploader.tsx:39). */
  function AfterDrop(selection: seq<LocalFile>, accepted: seq<LocalFile>, isPro: bool): (next: seq<LocalFile>)
    ensures |next| == |selection| + |ValidFiles(accepted, isPro)|
    ensures next[..|selection|] == selection
    ensures forall i :: |selection| <= i < |next| ==> next[i].size <= MaxSize(isPro) && next[i] in accepted
    // the appended part is the drop's valid files, in drop order
    ensures next[|selection|..] == ValidFiles(accepted, isPro)
  {
    var valid := ValidFiles(accepted, isPro);
    assert forall i :: 0 <= i < |valid| ==> valid[i] in valid;
    selection + valid
  }

  /** `files.filter((_, i) => i !== index)` (FileUploader.tsx:47). */
  function RemoveAt(files: seq<LocalFile>, index: int): (r: seq<LocalFile>)
    ensures |r| == if 0 <= index < |files| then |files| - 1 else |files|
  {
    if files == [] then []
    else (if index == 0 then [] else [files[0]]) + RemoveAt(files[1..], index - 1)
  }

  /** Removing deletes exactly the element at `index` and keeps the others in
      order; an index outside the list changes nothing. */
  lemma {:induction false} RemoveAtDeletesOne(files: seq<LocalFile>, index: int)
    ensures RemoveAt(files, index) == if 0 <= index < |files| then files[..index] + files[index + 1..] else files
  {
    if files != [] {
      RemoveAtDeletesOne(files[1..], index - 1);
      if 0 < index < |files| {
        assert files[1..][..index - 1] == files[1..index];
        assert files[1..][index - 1 + 1..] == files[index + 1..];
        assert [files[0]] + files[1..index] == files[..index];
      } else if index != 0 {
        assert [files[0]] + files[1..] == files;
      }
    }
  }

  /** Index of the first request that did not end with a 2xx status, or the
      number of requests when all did. */
  function FirstFailure(outcomes: seq<XhrOutcome>): (k: nat)
    ensures k <= |outcomes|
    ensures forall i :: 0 <= i < k ==> Succeeded(outcomes[i])
    ensures k < |outcomes| ==> !Succeeded(outcomes[k])
  {
    if outcomes == [] || !Succeeded(outcomes[0]) then 0
    else 1 + FirstFailure(outcomes[1..])
  }

  /** The forms posted for `files`, in order. */
  function Forms(files: seq<LocalFile>, userId: string): (forms: seq<UploadForm>)
    ensures |forms| == |files|
    ensures forall i :: 0 <= i < |files| ==> forms[i] == UploadForm(files[i], userId)
  {
    seq(|files|, i requires 0 <= i < |files| => UploadForm(files[i], userId))
  }

  /** The component state that the uploader changes. */
  class Uploader {
    var files: seq<LocalFile>
    var uploading: bool
    const userId: string
    const isPro: bool

    constructor (userId: string, isPro: bool)
      ensures files == [] && !uploading
      ensures this.userId == userId && this.isPro == isPro
    {
      this.userId, this.isPro := userId, isPro;
      files, uploading := [], false;
    }

    /** `onDrop`: keeps the files within the limit and returns how many were
        refused (the count the toast reports). */
    method Drop(accepted: seq<LocalFile>) returns (refused: nat)
      modifies this`files
      ensures files == AfterDrop(old(files), accepted, isPro)
      ensures refused == |InvalidFiles(accepted, isPro)|
    {
      var invalid := InvalidFiles(accepted, isPro);
      refused := |invalid|;
      files := files + ValidFiles(accepted, isPro);
    }

    /** `removeFile` */
    method Remove(index: int)
      modifies this`files
      ensures files == RemoveAt(old(files), index)
      ensures files == if 0 <= index < |old(files)| then old(files)[..index] + old(files)[index + 1..] else old(files)
    {
      RemoveAtDeletesOne(files, index);
      files := RemoveAt(files, index);
    }

    /** `uploadFiles` (FileUploader.tsx:50-115): posts the files one after the
        other, counts the 2xx answers, stops at the first failure, and clears
        the selection only when every file went through. `outcomes[i]` is how
        the request for the i-th file ends. */
    method UploadFiles(outcomes: seq<XhrOutcome>) returns (sent: seq<UploadForm>, report: UploadReport)
      requires |outcomes| == |files|
      modifies this
      ensures old(files) == [] ==> report == NothingToUpload && sent == []
      ensures old(files) == [] ==> files == old(files) && uploading == old(uploading)
      ensures old(files) != [] ==> !uploading
      ensures old(files) != [] && FirstFailure(outcomes) == |outcomes| ==>
        report == AllUploaded(|outcomes|) && sent == Forms(old(files), userId) && files == []
      ensures old(files) != [] && FirstFailure(outcomes) < |outcomes| ==>
        var k := FirstFailure(outcomes);
        report == UploadFailed(k, outcomes[k]) && sent == Forms(old(files)[..k + 1], userId)
        && files == old(files)
    {
      sent := [];
      if |files| == 0 {
        report := NothingToUpload;
        return;
      }
      uploading := true;
      var total := |files|;
      var uploadedFiles := 0;
      var failure: XhrOutcome := NetworkError;
      var failed := false;
      var i := 0;
      while i < total && !failed
        invariant 0 <= i <= total && files == old(files)
        invariant sent == Forms(files[..i], userId)
        invariant !failed ==> uploadedFiles == i && forall j :: 0 <= j < i ==> Succeeded(outcomes[j])
        invariant failed ==> 1 <= i && uploadedFiles == i - 1 && FirstFailure(outcomes) == i - 1
                             && failure == outcomes[i - 1]
      {
        sent := sent + [UploadForm(files[i], userId)];
        assert files[..i + 1] == files[..i] + [files[i]];
        if Succeeded(outcomes[i]) {
          uploadedFiles := uploadedFiles + 1;
        } else {
          failure := outcomes[i];
          failed := true;
          FirstFailureAt(outcomes, i);
        }
        i := i + 1;
      }
      if failed {
        report := UploadFailed(uploadedFiles, failure);
      } else {
        FirstFailureAt(outcomes, i);
        assert files[..i] == files;
        report := AllUploaded(total);
        files := [];
      }
      uploading := false;
    }
  }

  /** `FirstFailure` is the position of the first unsuccessful outcome. */
  lemma FirstFailureAt(outcomes: seq<XhrOutcome>, k: nat)
    requires k <= |outcomes|
    requires forall j :: 0 <= j < k ==> Succeeded(outcomes[j])
    requires k < |outcomes| ==> !Succeeded(outcomes[k])
    ensures FirstFailure(outcomes) == k
  {
    var f := FirstFailure(outcomes);
    assert !(f < k) && !(k < f);
  }

  /** Once every file has gone through, the next drop starts a fresh
      selection: earlier files are not uploaded twice. */
  method UploadThenDrop(u: Uploader, outcomes: seq<XhrOutcome>, more: seq<LocalFile>)
    requires |outcomes| == |u.files| && u.files != []
    requires forall i :: 0 <= i < |outcomes| ==> Succeeded(outcomes[i])
    modifies u
    ensures u.files == ValidFiles(more, u.isPro)
  {
    FirstFailureAt(outcomes, |outcomes|);
    var sent, report := u.UploadFiles(outcomes);
    var refused := u.Drop(more);
  }
}
