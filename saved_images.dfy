/**
 * The saved-images screen: a cached copy of the server's image list with a
 * busy flag, refreshed wholesale from the server and never patched locally,
 * and the texts and addresses derived from one list entry. The outcomes of
 * the GET and DELETE requests and the user's answer to the confirmation
 * dialog come in as parameters.
 */
module SavedImages {
  import opened Js
  import ImageUploader

  /** One stored image as the server lists it. The upload date is kept as
      the text the screen shows for it. */
  datatype ImageRecord = ImageRecord(id: string, filename: string, isDocument: bool, uploadDate: string)

  /** The body of a successful list request; `images` may be missing. */
  datatype ListBody = ListBody(images: Option<seq<ImageRecord>>)

  /** How the list request ended: the response's `data`, which is `None`
      when it is `null` or `undefined` (reading `.images` from it throws),
      or a thrown error. An empty response body arrives as the empty string,
      whose `images` is `undefined`: that is `Some(ListBody(None))`. */
  datatype FetchOutcome = Fetched(data: Option<ListBody>) | FetchFailed

  /** A request the screen sends. */
  datatype Request = Get(url: string) | Delete(url: string)

  /** The button pressed in the delete confirmation dialog. */
  datatype Confirmation = CancelPressed | DeletePressed

  datatype DeleteOutcome = Deleted | DeleteFailed

  const ImagesUrl: string := ImageUploader.ServerUrl + "/images"
  const DownloadPrefix: string := ImageUploader.ServerUrl + "/uploads/"
  const DeletePrefix: string := ImageUploader.ServerUrl + "/images/"

  /** Address `downloadImage` opens: the file under the uploads path, with
      the file name appended as it is. */
  function DownloadUrl(filename: string): (url: string)
    ensures |url| == |DownloadPrefix| + |filename|
    ensures url[..|DownloadPrefix|] == DownloadPrefix && url[|DownloadPrefix|..] == filename
  {
    DownloadPrefix + filename
  }

  /** Address `deleteImage` sends DELETE to: the record under the images
      path, with the id appended as it is. */
  function DeleteUrl(id: string): (url: string)
    ensures |url| == |DeletePrefix| + |id|
    ensures url[..|DeletePrefix|] == DeletePrefix && url[|DeletePrefix|..] == id
  {
    DeletePrefix + id
  }

  /** Different files have different download addresses. */
  lemma DownloadUrlInjective(f: string, g: string)
    requires DownloadUrl(f) == DownloadUrl(g)
    ensures f == g
  {
    assert f == DownloadUrl(f)[|DownloadPrefix|..];
  }

  /** Different ids have different delete addresses, and none of them is
      the address the list is fetched from. */
  lemma DeleteUrlInjective(id: string, other: string)
    ensures DeleteUrl(id) == DeleteUrl(other) ==> id == other
    ensures DeleteUrl(id) != ImagesUrl
  {
    if DeleteUrl(id) == DeleteUrl(other) {
      assert id == DeleteUrl(id)[|DeletePrefix|..];
    }
  }

  /** A download address never coincides with a delete address: the paths
      differ right after the server part. */
  lemma DownloadUrlIsNotDeleteUrl(filename: string, id: string)
    ensures DownloadUrl(filename) != DeleteUrl(id)
  {
    var k := |ImageUploader.ServerUrl| + 1;
    assert DownloadUrl(filename)[k] == DownloadPrefix[k] == 'u';
    assert DeleteUrl(id)[k] == DeletePrefix[k] == 'i';
  }

  /** The type shown for an entry. */
  function TypeLabel(isDocument: bool): (typeText: string)
    ensures typeText == "Document" <==> isDocument
    ensures typeText == "Image" <==> !isDocument
  {
    if isDocument then "Document" else "Image"
  }

  predicate IsDigit(c: char) {
    '0' <= c <= '9'
  }

  /** The numeric value of a string of decimal digits (a non-digit counts
      as zero). */
  function DecimalValue(s: string): nat {
    if s == [] then 0
    else 10 * DecimalValue(s[..|s| - 1]) + (if IsDigit(s[|s| - 1]) then s[|s| - 1] as int - '0' as int else 0)
  }

  /** How JavaScript writes a list position (an integer below 10^21, where
      it would switch to exponent form): its decimal digits, with no
      leading zero. */
  function DecimalText(n: nat): (s: string)
    ensures |s| > 0 && forall i :: 0 <= i < |s| ==> IsDigit(s[i])
    ensures s[0] == '0' ==> n == 0
    ensures DecimalValue(s) == n
  {
    var last := ('0' as int + n % 10) as char;
    if n < 10 then
      [last]
    else
      var s := DecimalText(n / 10) + [last];
      assert s[..|s| - 1] == DecimalText(n / 10);
      s
  }

  /** The heading of the entry at `index` in the list: its position counted
      from one, then `. ` and the file name. */
  function ItemTitle(index: nat, filename: string): (title: string)
    ensures |title| >= |filename| + 3
    ensures var k := |title| - |filename| - 2;
      && title[k..] == ". " + filename
      && (forall i :: 0 <= i < k ==> IsDigit(title[i]))
      && (title[0] != '0')
      && DecimalValue(title[..k]) == index + 1
  {
    var number := DecimalText(index + 1);
    var title := number + ". " + filename;
    assert title[..|number|] == number;
    title
  }

  /** The line under the heading: the type, then the upload date. */
  function ItemSubtitle(item: ImageRecord): (subtitle: string)
    ensures |subtitle| >= 8 && subtitle[..8] == "Document" <==> item.isDocument
    ensures !item.isDocument ==> |subtitle| >= 5 && subtitle[..5] == "Image"
    ensures |subtitle| == |TypeLabel(item.isDocument)| + 3 + |item.uploadDate|
    ensures subtitle[..|TypeLabel(item.isDocument)|] == TypeLabel(item.isDocument)
    ensures subtitle[|subtitle| - |item.uploadDate| - 3..] == " | " + item.uploadDate
  {
    var s := TypeLabel(item.isDocument) + " | " + item.uploadDate;
    assert s[0] == TypeLabel(item.isDocument)[0];
    assert item.isDocument ==> s[..8] == "Document";
    assert s[..|TypeLabel(item.isDocument)|] == TypeLabel(item.isDocument);
    s
  }

  /** The text of the details alert for an entry. */
  function DetailsMessage(item: ImageRecord): (message: string)
    ensures |message| >= 4 + |item.id|
    ensures message[..4 + |item.id|] == "ID: " + item.id
  {
    var head := "ID: " + item.id;
    var message := head + "\nFilename: " + item.filename + "\nType: "
      + TypeLabel(item.isDocument) + "\nUpload Date: " + item.uploadDate;
    assert message[..|head|] == head;
    message
  }

  /** The details alert tells a document from an image: two entries that
      differ only in the document flag get different messages. */
  lemma {:induction false} DetailsMessageShowsType(item: ImageRecord)
    ensures DetailsMessage(item.(isDocument := true)) != DetailsMessage(item.(isDocument := false))
  {
    var prefix := "ID: " + item.id + "\nFilename: " + item.filename + "\nType: ";
    var doc := DetailsMessage(item.(isDocument := true));
    var img := DetailsMessage(item.(isDocument := false));
    assert doc == prefix + ("Document" + "\nUpload Date: " + item.uploadDate);
    assert img == prefix + ("Image" + "\nUpload Date: " + item.uploadDate);
    assert doc[|prefix|] == 'D';
    assert img[|prefix|] == 'I';
  }

  class SavedImagesScreen {
    var images: seq<ImageRecord>
    var loading: bool

    constructor ()
      ensures images == [] && !loading
    {
      images := [];
      loading := false;
    }

    /** The part of `fetchImages` before the request is awaited: the busy
        flag is set and the list request is sent. */
    method StartFetch() returns (request: Request)
      modifies this
      ensures request == Get(ImagesUrl)
      ensures loading && images == old(images)
    {
      loading := true;
      request := Get(ImagesUrl);
    }

    /** The part of `fetchImages` after the request settles. A response
        whose `data` is present replaces the whole list by its `images`
        field, or by the empty list when that field is missing (as for an
        empty body); a failed request, or a response whose `data` is `null`
        or `undefined` (reading `.images` throws), leaves the list alone.
        The busy flag is reset either way. */
    method FinishFetch(outcome: FetchOutcome)
      modifies this
      ensures !loading
      ensures outcome.Fetched? && outcome.data.Some? ==> images == outcome.data.value.images.GetOr([])
      ensures !(outcome.Fetched? && outcome.data.Some?) ==> images == old(images)
    {
      if outcome.Fetched? && outcome.data.Some? {
        images := outcome.data.value.images.GetOr([]);
      }
      loading := false;
    }

    /** `fetchImages` run to completion with no other event in between. */
    method FetchImages(outcome: FetchOutcome) returns (request: Request)
      modifies this
      ensures request == Get(ImagesUrl)
      ensures !loading
      ensures outcome.Fetched? && outcome.data.Some? ==> images == outcome.data.value.images.GetOr([])
      ensures !(outcome.Fetched? && outcome.data.Some?) ==> images == old(images)
    {
      request := StartFetch();
      FinishFetch(outcome);
    }

    /** `deleteImage`: after the confirmation dialog, Cancel sends nothing;
        Delete sends the DELETE and, when it succeeds, starts a refetch of
        the whole list without waiting for it. The entry is never removed
        from the cached list here: only the refetch's result replaces it. */
    method DeleteImage(id: string, choice: Confirmation, outcome: DeleteOutcome) returns (requests: seq<Request>)
      modifies this
      ensures images == old(images)
      ensures choice == CancelPressed ==> requests == [] && loading == old(loading)
      ensures choice == DeletePressed && outcome == DeleteFailed ==>
        requests == [Delete(DeleteUrl(id))] && loading == old(loading)
      ensures choice == DeletePressed && outcome == Deleted ==>
        requests == [Delete(DeleteUrl(id)), Get(ImagesUrl)] && loading
    {
      if choice == CancelPressed {
        return [];
      }
      requests := [Delete(DeleteUrl(id))];
      if outcome == Deleted {
        var refetch := StartFetch();
        requests := requests + [refetch];
      }
    }
  }
}
