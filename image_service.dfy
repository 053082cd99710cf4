/** The upload ingestion path (app/services/image_service.py). */
module ImageService {
  import opened Wrappers
  import opened Config
  import opened Errors
  import opened Validators
  import opened FileStorage

  /** The declared content type, a missing one read as the empty string. */
  function DeclaredMimeType(contentType: Option<string>): string {
    contentType.GetOr("")
  }

  /**
   * `process_upload`: check the MIME type, then the size of the content, then store the
   * content as one blob under the fresh id with the extension mapped from the lower-cased
   * type, and return the id. The fresh id stands for the generated identifier: no image is
   * stored under it yet.
   */
  method ProcessUpload(store: Storage, contentType: Option<string>, content: Bytes, freshId: string)
    returns (res: Result<string, Error>)
    requires !store.HasImage(freshId)
    modifies store
    ensures store.records == old(store.records)
    ensures !ValidateMimeType(DeclaredMimeType(contentType)) ==>
      res == Failure(InvalidFileType(DeclaredMimeType(contentType)))
    ensures ValidateMimeType(DeclaredMimeType(contentType)) && !ValidateFileSize(|content|) ==>
      res == Failure(FileTooLarge(|content|))
    ensures res.Failure? ==> store.images == old(store.images) && !store.HasImage(freshId)
    ensures res.Success? <==> ValidateMimeType(DeclaredMimeType(contentType)) && 0 < |content| <= MaxFileSize
    ensures res.Success? ==>
      var ext := ExtensionFor(ToLower(DeclaredMimeType(contentType)));
      && res.value == freshId
      && ext.Some? && (ext.value == "jpg" || ext.value == "png")
      && ImageFileName(freshId, ext.value) !in old(store.images)
      && store.images == old(store.images)[ImageFileName(freshId, ext.value) := content]
      && store.HasImage(freshId)
      && |store.images| == |old(store.images)| + 1
  {
    var mimeType := DeclaredMimeType(contentType);
    if !ValidateMimeType(mimeType) {
      return Failure(InvalidFileType(mimeType));
    }
    var fileSize := |content|;
    if !ValidateFileSize(fileSize) {
      return Failure(FileTooLarge(fileSize));
    }
    var imageId := freshId;
    var extension := ExtensionFor(ToLower(mimeType)).GetOr("jpg");
    ValidatedMimeTypeHasExtension(mimeType);
    var _ := store.SaveImage(imageId, content, extension);
    return Success(imageId);
  }
}
