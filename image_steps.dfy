// The image steps the admin pages share (src/pages/Admin/CategoryNew.tsx,
// CategoryEdit.tsx, ItemNew.tsx, ItemEdit.tsx, Categories.tsx, Items.tsx):
// what uploadImage and deleteImage leave in the bucket and which error they
// throw, and the edit pages' delete-then-upload of a replaced image.

module ImageSteps {
  import opened Types
  import opened StorageService

  /** The error uploadImage throws, if any: the file checks first, then the
      upload, then the request for the download URL. */
  function UploadFailure(file: File, upload: Outcome, getUrl: Outcome): (e: Option<string>)
    ensures e.None? <==> ValidateImage(file).None? && upload.Done? && getUrl.Done?
  {
    if ValidateImage(file).Some? then ValidateImage(file)
    else if upload.Failed? then Some(upload.message)
    else if getUrl.Failed? then Some(getUrl.message)
    else None
  }

  /** The bucket's objects after uploadImage: the object is stored once the
      checks pass and the upload completes, even if the URL request fails. */
  function AfterUpload(objects: set<string>, file: File, path: string, upload: Outcome): set<string>
  {
    if ValidateImage(file).None? && upload.Done? then objects + {path} else objects
  }

  /** The bucket's objects after deleteImage of `url`: the object it names is
      gone when the URL parses and the call completes. */
  function AfterDelete(objects: set<string>, url: string, outcome: Outcome): set<string>
  {
    if ExtractObjectPath(url).Ok? && outcome.Done? then objects - {ExtractObjectPath(url).value} else objects
  }

  /** The bucket's objects after an edit page's deletion of the loaded
      image: nothing is asked of the bucket when there is none. */
  function AfterDeleteOld(objects: set<string>, oldImage: string, outcome: Outcome): set<string>
  {
    if oldImage != "" then AfterDelete(objects, oldImage, outcome) else objects
  }

  /** The image step of an edit page's handleSubmit: the loaded record's
      image, when there is one, is deleted and a failure of that ignored;
      then the new file is uploaded to `path`. */
  method ReplaceImage(bucket: Bucket, oldImage: string, file: File, path: string,
                      deleteOld: Outcome, upload: Outcome, getUrl: Outcome)
    returns (r: Result<string>)
    modifies bucket
    ensures bucket.objects == AfterUpload(AfterDeleteOld(old(bucket.objects), oldImage, deleteOld), file, path, upload)
    ensures r.Err? <==> UploadFailure(file, upload, getUrl).Some?
    ensures r.Err? ==> r.message == UploadFailure(file, upload, getUrl).value
    ensures r.Ok? ==> r.value == DownloadUrl(bucket.name, path)
  {
    if oldImage != "" {
      var _ := bucket.DeleteImage(oldImage, deleteOld);
    }
    r := bucket.UploadImage(file, path, upload, getUrl);
  }

  /** A submit whose new image is refused after the old one was deleted
      leaves the category or item naming an object the bucket no longer holds. */
  lemma DanglingImage(objects: set<string>, oldImage: string, file: File, path: string, upload: Outcome)
    requires ExtractObjectPath(oldImage).Ok? && ExtractObjectPath(oldImage).value != path
    requires ValidateImage(file).Some? || upload.Failed?
    ensures ExtractObjectPath(oldImage).value !in AfterUpload(AfterDelete(objects, oldImage, Done), file, path, upload)
  {
  }
}
