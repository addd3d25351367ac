/** The avatar editor (client/src/components/EditAvatar.tsx): a file is
    chosen, previewed, checked against the dimension rule, and uploaded.
    The browser's image decoding and the dialog are foreign: a preview's
    outcome arrives as `PreviewLoaded(width, height)` or `PreviewFailed()`. */
module Avatar {
  import opened Wrappers
  import Profile

  const MaxFileSize := 2 * 1024 * 1024

  /** The check the preview's load handler makes: square, and between 128
      and 1024 pixels a side. */
  predicate PreviewAccepted(width: int, height: int) {
    !(height != width || width > 1024 || height > 1024 || height < 128 || width < 128)
  }

  lemma PreviewAcceptedIff(width: int, height: int)
    ensures PreviewAccepted(width, height) <==> width == height && 128 <= width <= 1024
  {
  }

  /** What the editor accepts the server accepts too, and keeps as it is;
      the server also takes non-square images, which it pads. */
  lemma ClientImpliesServer(format: string, width: int, height: int)
    requires format == "jpeg" || format == "png"
    ensures PreviewAccepted(width, height) ==>
      Profile.DimensionsAccepted(width, height)
      && Profile.ValidateImage(Profile.Metadata(format, width, height)) == Ok(Profile.Image(width, height))
    ensures Profile.DimensionsAccepted(128, 256) && !PreviewAccepted(128, 256)
    ensures MaxFileSize == Profile.MaxUploadSize
  {
  }

  /** A chosen file: its name and size in bytes. */
  datatype ChosenFile = ChosenFile(name: string, size: nat)

  class AvatarEditor {
    var file: Option<ChosenFile>
    var isFileValid: bool
    var previewUrl: Option<string>
    var isPreviewLoading: bool
    /** The dimensions of the last preview that loaded. */
    ghost var checked: Option<(int, int)>

    /** The file input and its button are disabled while a preview loads. */
    predicate CanChooseFile()
      reads this
    {
      !isPreviewLoading
    }

    /** The preview image is on the page, so its load or error handler
      will run. */
    predicate PreviewShown()
      reads this
    {
      previewUrl.Some?
    }

    /** The editor can be used: a loading preview will finish, an accepted
      file is the one last previewed and passed the check, and no file
      over the limit is kept. */
    ghost predicate Valid()
      reads this
    {
      && (isPreviewLoading ==> PreviewShown())
      && (isFileValid ==> file.Some? && checked.Some? && PreviewAccepted(checked.value.0, checked.value.1))
      && (file.Some? ==> file.value.size <= MaxFileSize)
    }

    constructor ()
      ensures file.None? && !isFileValid && previewUrl.None? && !isPreviewLoading
      ensures Valid()
    {
      file, isFileValid, previewUrl, isPreviewLoading := None, false, None, false;
      checked := None;
    }

    /** `handleFileChange` as written: the reset, then, in the deferred
      part, a missing or oversized file returns early. The loading flag
      then stays set with no preview to clear it, and the file input stays
      disabled. */
    method ChooseFileAsWritten(chosen: Option<ChosenFile>, url: string)
      requires CanChooseFile()
      modifies this`file, this`isFileValid, this`previewUrl, this`isPreviewLoading
      ensures isPreviewLoading && !isFileValid
      ensures chosen.Some? && chosen.value.size <= MaxFileSize ==> previewUrl == Some(url) && file == chosen
      ensures chosen.None? || chosen.value.size > MaxFileSize ==>
        file == old(file) && !CanChooseFile() && !PreviewShown()
    {
      isPreviewLoading, previewUrl, isFileValid := true, None, false;
      if chosen.None? || chosen.value.size > MaxFileSize {
        return;
      }
      previewUrl := Some(url);
      file := chosen;
    }

    /** `handleImageError` as written: it drops the preview but leaves the
      loading flag set, so after a file the browser cannot decode the
      editor is stuck in the same way. */
    method PreviewFailedAsWritten()
      requires PreviewShown() && isPreviewLoading
      modifies this`isFileValid, this`previewUrl
      ensures !isFileValid && !CanChooseFile() && !PreviewShown()
    {
      isFileValid := false;
      previewUrl := None;
    }

    /** `handleFileChange` with the loading flag cleared when the deferred
      part gives up. */
    method ChooseFile(chosen: Option<ChosenFile>, url: string)
      requires Valid() && CanChooseFile()
      modifies this`file, this`isFileValid, this`previewUrl, this`isPreviewLoading
      ensures Valid() && !isFileValid
      ensures chosen.Some? && chosen.value.size <= MaxFileSize ==>
        previewUrl == Some(url) && file == chosen && isPreviewLoading
      ensures chosen.None? || chosen.value.size > MaxFileSize ==>
        file == old(file) && previewUrl.None? && CanChooseFile()
    {
      isPreviewLoading, previewUrl, isFileValid := true, None, false;
      if chosen.None? || chosen.value.size > MaxFileSize {
        isPreviewLoading := false;
        return;
      }
      previewUrl := Some(url);
      file := chosen;
    }

    /** `handleImageError` with the loading flag cleared. */
    method PreviewFailed()
      requires Valid() && PreviewShown()
      modifies this`isFileValid, this`previewUrl, this`isPreviewLoading
      ensures Valid() && !isFileValid && !PreviewShown() && CanChooseFile()
    {
      isFileValid := false;
      previewUrl := None;
      isPreviewLoading := false;
    }

    /** `handlePreviewLoad` as written: the file is valid exactly when the
      preview passes the dimension check. The handler was memoised without
      the preview URL among its dependencies, so it sees the URL as it was
      at the first render (none), and a refused preview is neither revoked
      nor dropped. */
    method PreviewLoadedAsWritten(width: int, height: int)
      requires Valid() && PreviewShown() && file.Some?
      modifies this`isFileValid, this`isPreviewLoading, this`checked
      ensures Valid() && CanChooseFile()
      ensures isFileValid == PreviewAccepted(width, height)
      ensures previewUrl == old(previewUrl)
      ensures !PreviewAccepted(width, height) ==> PreviewShown()
    {
      checked := Some((width, height));
      isFileValid := PreviewAccepted(width, height);
      isPreviewLoading := false;
    }

    /** `handlePreviewLoad` reading the current preview URL: a refused
      preview is dropped, an accepted one stays. */
    method PreviewLoaded(width: int, height: int)
      requires Valid() && PreviewShown() && file.Some?
      modifies this`isFileValid, this`isPreviewLoading, this`checked, this`previewUrl
      ensures Valid() && CanChooseFile()
      ensures isFileValid == PreviewAccepted(width, height)
      ensures PreviewAccepted(width, height) ==> previewUrl == old(previewUrl)
      ensures !PreviewAccepted(width, height) ==> !PreviewShown()
    {
      checked := Some((width, height));
      isFileValid := PreviewAccepted(width, height);
      if !isFileValid {
        previewUrl := None;
      }
      isPreviewLoading := false;
    }

    /** `handleUpload`: only a present file that passed the check is sent,
      and then it is within the size limit and its dimensions are ones the
      server accepts. */
    method Upload() returns (sent: Option<ChosenFile>)
      requires Valid()
      ensures sent.Some? <==> file.Some? && isFileValid
      ensures sent.Some? ==> sent == file && sent.value.size <= Profile.MaxUploadSize
      ensures sent.Some? ==> Profile.DimensionsAccepted(checked.value.0, checked.value.1)
    {
      if file.None? || !isFileValid {
        return None;
      }
      sent := file;
    }
  }
}
