/** The video uploader component: file validation and the component's own
    state (`dragActive`, `selectedVideo`, `previewUrl`). */
module Uploader {
  import opened Nullable
  import opened Browser

  /** The size ceiling, 1 GiB. */
  const MaxFileSize: nat := 1024 * 1024 * 1024

  /** The MIME types the uploader accepts. */
  const AcceptedVideoTypes: seq<string> := ["video/mp4", "video/webm", "video/ogg", "video/quicktime"]

  /** The two reasons for refusing a file; each is shown to the user as a toast. */
  datatype FileError = UnsupportedType | FileTooLarge

  datatype Validation = Accepted | Rejected(error: FileError)

  /** `Array.prototype.includes`, scanning from the front. */
  function Includes<T(==)>(list: seq<T>, x: T): (b: bool)
    ensures b <==> x in list
  {
    if list == [] then false
    else list[0] == x || Includes(list[1..], x)
  }

  /** `validateFile`: the type check runs first, then the size check. */
  function ValidateFile(file: File): (r: Validation)
    ensures r == Accepted <==> file.mimeType in AcceptedVideoTypes && file.size <= MaxFileSize
    ensures r == Rejected(UnsupportedType) <==> file.mimeType !in AcceptedVideoTypes
    ensures r == Rejected(FileTooLarge) <==> file.mimeType in AcceptedVideoTypes && file.size > MaxFileSize
  {
    if !Includes(AcceptedVideoTypes, file.mimeType) then Rejected(UnsupportedType)
    else if file.size > MaxFileSize then Rejected(FileTooLarge)
    else Accepted
  }

  /** A file of exactly 1 GiB with an accepted type passes. */
  lemma CeilingIsInclusive(file: File)
    requires file.mimeType in AcceptedVideoTypes && file.size == 1073741824
    ensures ValidateFile(file) == Accepted
  {
  }

  /** A file over 1 GiB is refused whatever its type. */
  lemma OversizeRejected(file: File)
    requires file.size > 1073741824
    ensures ValidateFile(file).Rejected?
  {
  }

  /** An unsupported file that is also too large reports only the type error. */
  lemma TypeCheckedBeforeSize(file: File)
    requires file.mimeType !in AcceptedVideoTypes && file.size > MaxFileSize
    ensures ValidateFile(file) == Rejected(UnsupportedType)
  {
  }

  /** The events `handleDrag` receives, by their `type` string. */
  predicate ActivatesDrag(eventType: string)
  {
    eventType == "dragenter" || eventType == "dragover"
  }

  class VideoUploader {
    var dragActive: bool
    var selectedVideo: Option<File>
    var previewUrl: Option<ObjectUrl>
    /** Every call made to the `onVideoSelected` prop, in order. */
    var reportedSelections: seq<File>
    /** Every validation toast shown, in order. */
    var toasts: seq<FileError>
    /** How many object URLs this component has created. */
    var objectUrlsCreated: nat

    /** A preview URL exists exactly while a video is selected, it was made
        by this component, the selected video passed validation, and it is
        the last one reported to the parent. */
    ghost predicate Valid()
      reads this
    {
      && (selectedVideo.Some? <==> previewUrl.Some?)
      && (previewUrl.Some? ==> previewUrl.value.id < objectUrlsCreated)
      && (selectedVideo.Some? ==>
            && ValidateFile(selectedVideo.value) == Accepted
            && |reportedSelections| > 0
            && reportedSelections[|reportedSelections| - 1] == selectedVideo.value)
      && (forall i :: 0 <= i < |reportedSelections| ==> ValidateFile(reportedSelections[i]) == Accepted)
    }

    constructor ()
      ensures Valid()
      ensures !dragActive && selectedVideo == None && previewUrl == None
      ensures reportedSelections == [] && toasts == [] && objectUrlsCreated == 0
    {
      dragActive := false;
      selectedVideo := None;
      previewUrl := None;
      reportedSelections := [];
      toasts := [];
      objectUrlsCreated := 0;
    }

    /** `handleDrag`: enter and over switch the highlight on, leave switches it
        off, any other event leaves it as it was. */
    method HandleDrag(eventType: string)
      requires Valid()
      modifies this`dragActive
      ensures Valid()
      ensures ActivatesDrag(eventType) ==> dragActive
      ensures !ActivatesDrag(eventType) && eventType == "dragleave" ==> !dragActive
      ensures !ActivatesDrag(eventType) && eventType != "dragleave" ==> dragActive == old(dragActive)
    {
      if ActivatesDrag(eventType) {
        dragActive := true;
      } else if eventType == "dragleave" {
        dragActive := false;
      }
    }

    /** `handleVideoSelection`: an invalid file only shows its error toast; a
        valid one becomes the selection, is reported to the parent once and
        gets a fresh preview URL. */
    method HandleVideoSelection(file: File)
      requires Valid()
      modifies this`selectedVideo, this`previewUrl, this`reportedSelections, this`toasts, this`objectUrlsCreated
      ensures Valid()
      ensures ValidateFile(file).Rejected? ==>
        && selectedVideo == old(selectedVideo) && previewUrl == old(previewUrl)
        && reportedSelections == old(reportedSelections)
        && toasts == old(toasts) + [ValidateFile(file).error]
        && objectUrlsCreated == old(objectUrlsCreated)
      ensures ValidateFile(file) == Accepted ==>
        && selectedVideo == Some(file)
        && reportedSelections == old(reportedSelections) + [file]
        && previewUrl == Some(ObjectUrl(old(objectUrlsCreated)))
        && objectUrlsCreated == old(objectUrlsCreated) + 1
        && toasts == old(toasts)
    {
      var validation := ValidateFile(file);
      if validation.Rejected? {
        toasts := toasts + [validation.error];
        return;
      }
      selectedVideo := Some(file);
      reportedSelections := reportedSelections + [file];
      var videoUrl := ObjectUrl(objectUrlsCreated);
      objectUrlsCreated := objectUrlsCreated + 1;
      previewUrl := Some(videoUrl);
    }

    /** `handleDrop`: clears the highlight and takes the first dropped file, if any.
        A missing file list is passed as the empty sequence. */
    method HandleDrop(files: seq<File>)
      requires Valid()
      modifies this
      ensures Valid()
      ensures !dragActive
      ensures files == [] ==>
        && selectedVideo == old(selectedVideo) && previewUrl == old(previewUrl)
        && reportedSelections == old(reportedSelections) && toasts == old(toasts)
        && objectUrlsCreated == old(objectUrlsCreated)
      ensures files != [] && ValidateFile(files[0]).Rejected? ==>
        && selectedVideo == old(selectedVideo) && previewUrl == old(previewUrl)
        && reportedSelections == old(reportedSelections)
        && toasts == old(toasts) + [ValidateFile(files[0]).error]
        && objectUrlsCreated == old(objectUrlsCreated)
      ensures files != [] && ValidateFile(files[0]) == Accepted ==>
        && selectedVideo == Some(files[0])
        && reportedSelections == old(reportedSelections) + [files[0]]
        && previewUrl == Some(ObjectUrl(old(objectUrlsCreated)))
        && objectUrlsCreated == old(objectUrlsCreated) + 1
        && toasts == old(toasts)
    {
      dragActive := false;
      if files != [] {
        HandleVideoSelection(files[0]);
      }
    }

    /** `handleChange`: takes the first file chosen in the file input, if any.
        A missing file list is passed as the empty sequence. */
    method HandleChange(files: seq<File>)
      requires Valid()
      modifies this`selectedVideo, this`previewUrl, this`reportedSelections, this`toasts, this`objectUrlsCreated
      ensures Valid()
      ensures files == [] ==>
        && selectedVideo == old(selectedVideo) && previewUrl == old(previewUrl)
        && reportedSelections == old(reportedSelections) && toasts == old(toasts)
        && objectUrlsCreated == old(objectUrlsCreated)
      ensures files != [] && ValidateFile(files[0]).Rejected? ==>
        && selectedVideo == old(selectedVideo) && previewUrl == old(previewUrl)
        && reportedSelections == old(reportedSelections)
        && toasts == old(toasts) + [ValidateFile(files[0]).error]
        && objectUrlsCreated == old(objectUrlsCreated)
      ensures files != [] && ValidateFile(files[0]) == Accepted ==>
        && selectedVideo == Some(files[0])
        && reportedSelections == old(reportedSelections) + [files[0]]
        && previewUrl == Some(ObjectUrl(old(objectUrlsCreated)))
        && objectUrlsCreated == old(objectUrlsCreated) + 1
        && toasts == old(toasts)
    {
      if files != [] {
        HandleVideoSelection(files[0]);
      }
    }

    /** `removeSelectedVideo`: forgets the selection and its preview URL
        (the URL is not revoked). */
    method RemoveSelectedVideo()
      requires Valid()
      modifies this`selectedVideo, this`previewUrl
      ensures Valid()
      ensures selectedVideo == None && previewUrl == None
    {
      selectedVideo := None;
      previewUrl := None;
    }
  }
}
