/**
 * The photo-finish page: upload validation (a video type of at most
 * 500 MB), the simulated upload progress, the saved-video library with
 * deletion, the file-size display and the library usage.  The browser's
 * storage calls are parameters: their success is an input, their data
 * the library's list.
 */
module PhotoFinishLibrary {
  import opened Common

  const MaxUploadBytes := 500 * 1024 * 1024

  /** The file picked in the input: its MIME type and size in bytes. */
  datatype FileInfo = FileInfo(mimeType: string, size: nat)

  datatype UploadCheck = NoFile | InvalidType | TooLarge | Accepted

  /** `handleFileUpload`'s checks, in order: a file, then a `video/` type, then at most 500 MB. */
  function ValidateUpload(file: Option<FileInfo>): (r: UploadCheck)
    ensures r == NoFile <==> file.None?
    ensures r == InvalidType <==> file.Some? && !StartsWith(file.value.mimeType, "video/")
    ensures r == TooLarge <==> file.Some? && StartsWith(file.value.mimeType, "video/") && file.value.size > MaxUploadBytes
    ensures r == Accepted <==> file.Some? && StartsWith(file.value.mimeType, "video/") && file.value.size <= MaxUploadBytes
  {
    if file.None? then NoFile
    else if !StartsWith(file.value.mimeType, "video/") then InvalidType
    else if file.value.size > MaxUploadBytes then TooLarge
    else Accepted
  }

  /** Any video of exactly 500 MB passes, one byte more does not. */
  lemma SizeLimitIsInclusive(mimeType: string)
    requires StartsWith(mimeType, "video/")
    ensures ValidateUpload(Some(FileInfo(mimeType, 524288000))) == Accepted
    ensures ValidateUpload(Some(FileInfo(mimeType, 524288001))) == TooLarge
  {
  }

  /** The simulated progress steps of `uploadVideo`. */
  const ProgressSteps: seq<nat> := [20, 40, 60, 80, 95]

  datatype UploadStatus = Idle | UploadingVideo | Uploading | Finalizing | Complete

  datatype SavedVideo = SavedVideo(id: string, name: string, size: nat)

  /** `formatFileSize`: kilobytes below 1 MB, else megabytes (the one-decimal rounding is not modelled). */
  datatype SizeDisplay = Kilobytes(kb: real) | Megabytes(mb: real)

  function FormatFileSize(bytes: nat): (r: SizeDisplay)
    ensures r.Kilobytes? <==> bytes < 1048576
    ensures r.Kilobytes? ==> r.kb * 1024.0 == bytes as real && r.kb < 1024.0
    ensures r.Megabytes? ==> r.mb * 1048576.0 == bytes as real && r.mb >= 1.0
  {
    if bytes < 1024 * 1024 then Kilobytes(bytes as real / 1024.0) else Megabytes(bytes as real / (1024.0 * 1024.0))
  }

  /** The library's usage of the tier's video limit, in percent. */
  function UsagePercentage(count: nat, tierLimit: nat): (p: real)
    requires tierLimit > 0
    ensures p * tierLimit as real == count as real * 100.0
    ensures 0.0 <= p
    ensures count <= tierLimit ==> p <= 100.0
    ensures count == tierLimit ==> p == 100.0
  {
    var q := count as real / tierLimit as real;
    var p := q * 100.0;
    assert q * tierLimit as real == count as real;
    assert p * tierLimit as real == (q * tierLimit as real) * 100.0;
    assert count == tierLimit ==> q == 1.0;
    assert count <= tierLimit ==> p <= 100.0 by {
      if count <= tierLimit {
        DivBetween(count as real, tierLimit as real, 0.0, 1.0);
      }
    }
    p
  }

  /** `videos.filter(v => v.id !== id)`. */
  function WithoutVideo(videos: seq<SavedVideo>, id: string): (r: seq<SavedVideo>)
    ensures |r| <= |videos|
    ensures forall i :: 0 <= i < |r| ==> r[i].id != id && r[i] in videos
    ensures forall v :: v in videos && v.id != id ==> v in r
    ensures (forall i :: 0 <= i < |videos| ==> videos[i].id != id) ==> r == videos
  {
    if videos == [] then []
    else if videos[0].id == id then WithoutVideo(videos[1..], id)
    else [videos[0]] + WithoutVideo(videos[1..], id)
  }

  /** Deleting twice is deleting once. */
  lemma DeleteIdempotent(videos: seq<SavedVideo>, id: string)
    ensures WithoutVideo(WithoutVideo(videos, id), id) == WithoutVideo(videos, id)
  {
    var r := WithoutVideo(videos, id);
    assert forall i :: 0 <= i < |r| ==> r[i].id != id;
  }

  class Library {
    var savedVideos: seq<SavedVideo>
    var videoToDelete: Option<string>
    var deleteDialogOpen: bool
    var isUploading: bool
    var uploadProgress: nat
    var uploadStatus: UploadStatus

    constructor (videos: seq<SavedVideo>)
      ensures savedVideos == videos && videoToDelete.None? && !deleteDialogOpen
      ensures !isUploading && uploadProgress == 0 && uploadStatus == Idle
    {
      savedVideos, videoToDelete, deleteDialogOpen := videos, None, false;
      isUploading, uploadProgress, uploadStatus := false, 0, Idle;
    }

    /**
     * `uploadVideo`: the progress bar shows 0, then each simulated step,
     * then 100 with the upload complete; `shown` is every value shown, in
     * order.
     */
    method UploadVideo() returns (shown: seq<nat>)
      modifies this`isUploading, this`uploadProgress, this`uploadStatus
      ensures shown == [0] + ProgressSteps + [100]
      ensures isUploading && uploadProgress == 100 && uploadStatus == Complete
    {
      isUploading := true;
      uploadProgress := 0;
      uploadStatus := UploadingVideo;
      shown := [0];
      for i := 0 to |ProgressSteps|
        invariant shown == [0] + ProgressSteps[..i]
        invariant isUploading
      {
        uploadProgress := ProgressSteps[i];
        uploadStatus := if i == |ProgressSteps| - 1 then Finalizing else Uploading;
        shown := shown + [uploadProgress];
        PrefixStep(ProgressSteps, i);
      }
      WholePrefix(ProgressSteps);
      uploadProgress := 100;
      uploadStatus := Complete;
      shown := shown + [100];
    }

    /** `handleFileUpload`: only an accepted file starts the upload. */
    method HandleFileUpload(file: Option<FileInfo>) returns (r: UploadCheck, shown: seq<nat>)
      modifies this`isUploading, this`uploadProgress, this`uploadStatus
      ensures r == ValidateUpload(file)
      ensures r == Accepted ==> shown == [0] + ProgressSteps + [100] && uploadStatus == Complete
      ensures r != Accepted ==> shown == [] && isUploading == old(isUploading)
                                && uploadProgress == old(uploadProgress) && uploadStatus == old(uploadStatus)
    {
      r := ValidateUpload(file);
      shown := [];
      if r == Accepted {
        shown := UploadVideo();
      }
    }

    /** `confirmDeleteVideo`: remember the video and open the dialog. */
    method ConfirmDeleteVideo(id: string)
      modifies this`videoToDelete, this`deleteDialogOpen
      ensures videoToDelete == Some(id) && deleteDialogOpen
    {
      videoToDelete := Some(id);
      deleteDialogOpen := true;
    }

    /**
     * `handleDeleteVideo`: with no video chosen nothing happens; otherwise
     * the video leaves the list when storage deleted it, and in any case
     * the dialog closes and the choice is cleared.
     */
    method HandleDeleteVideo(storageDeleted: bool)
      modifies this`savedVideos, this`videoToDelete, this`deleteDialogOpen
      ensures old(videoToDelete).None? ==>
                savedVideos == old(savedVideos) && videoToDelete == old(videoToDelete) && deleteDialogOpen == old(deleteDialogOpen)
      ensures old(videoToDelete).Some? ==>
                savedVideos == (if storageDeleted then WithoutVideo(old(savedVideos), old(videoToDelete).value) else old(savedVideos))
                && videoToDelete.None? && !deleteDialogOpen
    {
      if videoToDelete.None? {
        return;
      }
      if storageDeleted {
        savedVideos := WithoutVideo(savedVideos, videoToDelete.value);
      }
      deleteDialogOpen := false;
      videoToDelete := None;
    }
  }

  /** The progress the upload shows only ever rises. */
  lemma ProgressRises()
    ensures var s := [0] + ProgressSteps + [100];
            forall i, j :: 0 <= i < j < |s| ==> s[i] < s[j]
  {
  }
}
