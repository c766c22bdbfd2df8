/**
 * The home screen's gallery: on Android it asks for permission to read the
 * device's images, and once it has permission it replaces the shown photos
 * with the first page of the device's photo index. The platform, the
 * permission constants the platform library defines, the user's answer to
 * the permission prompt and the page the photo index returns come in as
 * parameters.
 */
module HomePage {
  import opened Js

  /** The platforms the app can run on. */
  datatype Os = Android | Ios | MacOs | Windows | Web

  /** The permission names the Android library defines; the media-images
      one is missing on library versions that predate it. */
  datatype PermissionNames = PermissionNames(readMediaImages: Option<string>, readExternalStorage: string)

  /** The answer of the Android permission prompt that grants access. */
  const Granted: string := "granted"

  /** The explanation shown with the Android permission prompt. */
  datatype Rationale = Rationale(title: string, message: string, buttonNegative: string, buttonPositive: string)

  const GalleryRationale: Rationale :=
    Rationale("Access to gallery", "App needs access to your gallery ", "Cancel", "OK")

  /** A request to the Android permission prompt. */
  datatype PermissionRequest = PermissionRequest(permission: string, rationale: Rationale)

  /** What `requestPermission` asks the platform, if anything, and whether
      it then reports access. */
  datatype PermissionDecision = PermissionDecision(request: Option<PermissionRequest>, granted: bool)

  /** The query sent to the device's photo index. */
  datatype PhotoQuery = PhotoQuery(first: nat, assetType: string)

  const GalleryQuery: PhotoQuery := PhotoQuery(10, "Photos")

  /** One photo of the device's index, identified by its URI. */
  datatype Photo = Photo(uri: string)

  /** How the read of the photo index ended: the page's edges, or a
      rejection (for instance when the operating system denies access). */
  datatype PhotoRead = Read(edges: seq<Photo>) | ReadFailed

  /** The permission asked for: read media images where the library
      defines it, read external storage otherwise. */
  function GalleryPermission(names: PermissionNames): (permission: string)
    ensures Truthy(names.readMediaImages) ==> permission == names.readMediaImages.value
    ensures !Truthy(names.readMediaImages) ==> permission == names.readExternalStorage
  {
    if Truthy(names.readMediaImages) then names.readMediaImages.value else names.readExternalStorage
  }

  /** `requestPermission`: on Android the gallery permission is requested
      and access is reported exactly when the prompt answers `granted`; on
      any other platform nothing is requested and access is reported. */
  function RequestPermission(os: Os, names: PermissionNames, answer: string): (d: PermissionDecision)
    ensures d.request.Some? <==> os == Android
    ensures d.request.Some? ==> d.request.value.permission == GalleryPermission(names)
    ensures d.request.Some? ==> d.request.value.rationale == GalleryRationale
    ensures d.granted <==> os != Android || answer == Granted
  {
    if os == Android then
      PermissionDecision(Some(PermissionRequest(GalleryPermission(names), GalleryRationale)), answer == Granted)
    else
      PermissionDecision(None, true)
  }

  class HomeScreen {
    var photos: seq<Photo>

    constructor ()
      ensures photos == []
    {
      photos := [];
    }

    /** `loadPhotos`: without access the shown photos are left alone and the
        photo index is not read; with access the first ten photos are asked
        for, and the page returned replaces the shown photos wholesale. A
        rejected read is not caught, so the shown photos stay as they were. */
    method LoadPhotos(os: Os, names: PermissionNames, answer: string, read: PhotoRead)
      returns (permissionRequest: Option<PermissionRequest>, query: Option<PhotoQuery>)
      modifies this
      ensures permissionRequest == RequestPermission(os, names, answer).request
      ensures query.Some? <==> RequestPermission(os, names, answer).granted
      ensures query.Some? ==> query.value == GalleryQuery
      ensures query.Some? && read.Read? ==> photos == read.edges
      ensures query.None? || read.ReadFailed? ==> photos == old(photos)
    {
      var decision := RequestPermission(os, names, answer);
      permissionRequest := decision.request;
      if !decision.granted {
        return permissionRequest, None;
      }
      query := Some(GalleryQuery);
      if read.Read? {
        photos := read.edges;
      }
    }
  }
}
