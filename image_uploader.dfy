/**
 * The upload screen: the user picks one image from the library and posts it
 * to the classification server. The screen keeps three state cells, the
 * picked image's URI, the server's last answer and a busy flag. The picker
 * result and the outcome of the POST come in as parameters.
 */
module ImageUploader {
  import opened Js

  /** Base address of the server; the saved-images screen uses it too. */
  const ServerUrl: string := "http://192.168.82.155:5000"

  /** Address the image is posted to. */
  const UploadUrl: string := ServerUrl + "/upload"

  /** One entry of the picker's `assets` list. The URI is declared non-null
      at the use site but may still be absent at run time. */
  datatype Asset = Asset(uri: Option<string>)

  /** What the image library picker hands to its callback. */
  datatype PickerResult = PickerResult(didCancel: bool, assets: Option<seq<Asset>>)

  datatype Classification = Classification(labelText: string, confidence: real)

  /** The body the server answers a successful upload with. */
  datatype UploadReply = UploadReply(
    filename: string,
    isDocument: bool,
    mongodbId: string,
    documentName: Option<string>,
    extractedText: Option<string>,
    classification: Option<Classification>)

  /** One part of a multipart form: the field name, and the file's URI,
      content type and file name. */
  datatype FilePart = FilePart(field: string, uri: string, mimeType: string, name: string)

  /** A multipart POST as the screen builds it. */
  datatype UploadRequest = UploadRequest(url: string, contentType: string, parts: seq<FilePart>)

  /** How the POST ended: the server's data, or any thrown error. */
  datatype PostOutcome = Posted(data: UploadReply) | PostFailed

  class UploaderScreen {
    var imageUri: Option<string>
    var response: Option<UploadReply>
    var loading: bool

    /** Between events the state never holds the busy flag and a server
        answer together: starting an upload clears the answer, and the
        answer is only set in the step that resets the busy flag. */
    ghost predicate Valid()
      reads this
    {
      loading ==> response == None
    }

    constructor ()
      ensures Valid()
      ensures imageUri == None && response == None && !loading
    {
      imageUri := None;
      response := None;
      loading := false;
    }

    /** `pickImage`: a cancelled pick, or one without assets, changes
        nothing; otherwise the first asset's URI becomes the picked image
        and any earlier server answer is cleared. */
    method PickImage(result: PickerResult)
      requires Valid()
      modifies this
      ensures Valid()
      ensures loading == old(loading)
      ensures result.didCancel ==> imageUri == old(imageUri) && response == old(response)
      ensures !result.didCancel && result.assets.Some? && |result.assets.value| > 0 ==>
        imageUri == result.assets.value[0].uri && response == None
      ensures !result.didCancel && (result.assets.None? || |result.assets.value| == 0) ==>
        imageUri == old(imageUri) && response == old(response)
    {
      if result.didCancel {
        return;
      }
      if result.assets.Some? && |result.assets.value| > 0 {
        imageUri := result.assets.value[0].uri;
        response := None;
      }
    }

    /** The part of `uploadImage` before the request is awaited. Without a
        truthy image URI it does nothing and builds no request; otherwise it
        sets the busy flag, clears the answer and builds a form with a single
        `file` part carrying the URI as a JPEG named `upload.jpg`. */
    method StartUpload() returns (request: Option<UploadRequest>)
      requires Valid()
      modifies this
      ensures Valid()
      ensures imageUri == old(imageUri)
      ensures request.Some? <==> Truthy(imageUri)
      ensures request.None? ==> response == old(response) && loading == old(loading)
      ensures request.Some? ==> loading && response == None
      ensures request.Some? ==>
        && request.value.url == UploadUrl
        && request.value.contentType == "multipart/form-data"
        && request.value.parts == [FilePart("file", imageUri.value, "image/jpeg", "upload.jpg")]
    {
      if !Truthy(imageUri) {
        return None;
      }
      loading := true;
      response := None;
      var part := FilePart("file", imageUri.value, "image/jpeg", "upload.jpg");
      request := Some(UploadRequest(UploadUrl, "multipart/form-data", [part]));
    }

    /** The part of `uploadImage` after the request settles: the server's
        data becomes the answer on success, a failure leaves the answer as
        it is, and the busy flag is reset either way. */
    method FinishUpload(outcome: PostOutcome)
      requires Valid()
      modifies this
      ensures Valid()
      ensures !loading && imageUri == old(imageUri)
      ensures outcome.Posted? ==> response == Some(outcome.data)
      ensures outcome.PostFailed? ==> response == old(response)
    {
      if outcome.Posted? {
        response := Some(outcome.data);
      }
      loading := false;
    }

    /** `uploadImage` run to completion with no other event in between. */
    method UploadImage(outcome: PostOutcome) returns (request: Option<UploadRequest>)
      requires Valid()
      modifies this
      ensures Valid()
      ensures imageUri == old(imageUri)
      ensures request.Some? <==> Truthy(imageUri)
      ensures request.None? ==> response == old(response) && loading == old(loading)
      ensures request.Some? ==> !loading
      ensures request.Some? && outcome.Posted? ==> response == Some(outcome.data)
      ensures request.Some? && outcome.PostFailed? ==> response == None
    {
      request := StartUpload();
      if request.Some? {
        FinishUpload(outcome);
      }
    }
  }
}
