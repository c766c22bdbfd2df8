# Document manager client: verified model of its decision logic

This project models in Dafny the logic of the document manager's mobile
client: four React Native screens. Everything they do beyond rendering is
modelled here.

- **Login form** (`login.dfy`, module `Login`). The e-mail is matched against
  `^[^\s@]+@[^\s@]+\.[^\s@]+$`. Then the password must have at least six
  characters. The regular expression is modelled twice. `MatchesEmailPattern`
  is its language read off the pattern: three `[^\s@]+` runs joined by `@`
  and `.`. `IsValidEmail` is an executable matcher that splits at the first
  `@`. The two are proved equal. `\s` is ECMAScript's whitespace and
  line-terminator set. A password's length is its JavaScript `length`, the
  number of UTF-16 code units (module `Js`).
- **Upload screen** (`image_uploader.dfy`, class `UploaderScreen`). It keeps
  three state cells: `imageUri`, `response` and `loading`. `pickImage` takes
  the picker's result as input. `uploadImage` is split at its `await` into
  `StartUpload` (guard, set busy, clear the answer, build the multipart form)
  and `FinishUpload` (apply the POST outcome, reset busy). `UploadImage` is
  the two run back to back. Every method keeps the object invariant
  `loading ==> response == None`: between events, the state never holds the
  busy flag and a server answer together.
- **Saved-images screen** (`saved_images.dfy`, class `SavedImagesScreen`). It
  keeps `images` and `loading`. `fetchImages` is split the same way.
  `deleteImage` takes the dialog choice and the DELETE outcome as inputs. It
  returns the requests it sends and never edits the cached list. The module
  also holds the pure derivations: download and delete URLs, the type label,
  the 1-based item heading, the subtitle and the details text.
- **Home screen** (`home_page.dfy`, module `HomePage`). `RequestPermission`
  is the pure platform/permission decision. `HomeScreen.LoadPhotos` replaces
  `photos` with the returned page. It leaves `photos` alone when access is
  denied or the photo read rejects.

Every library, OS or network call is an input to the model: the picker
result, the POST/GET/DELETE outcomes, the confirmation choice, the platform,
the permission constants, the permission prompt's answer and the outcome of the photo read.

The two screens that `await` a network request are modelled as a start
method and a finish method, because other events can come in between. The
finish step is atomic: JavaScript runs each continuation to completion, so no
event handler can run between `setResponse(res.data)` and
`setLoading(false)`.

Some behaviour is absent from the code, so the model does not have it
either:
- Uploads have no busy guard. A second upload started while one is in
  flight is neither rejected nor queued.
- List refreshes carry no sequence number.
- The home screen requests the gallery permission without checking it
  first.
- None of these screens has camera capture or logout.
- After a successful delete, the refetch of the list is started but not
  awaited.

## Model

| member | source | states |
|---|---|---|
| `Js.Truthy` | components/ImageUploader.tsx:48 | A possibly missing string is truthy iff it is neither null/undefined nor the empty string. This is the test behind `!imageUri` and the `\|\|` fallback on the home screen. |
| `Js.Utf16Length` | components/Login.tsx:18 | `password.length` counts UTF-16 code units, between the character count and twice it. |
| `Js.Utf16LengthBounds` | components/Login.tsx:18 | A JavaScript string length equals the character count exactly when no character needs a surrogate pair. |
| `Login.IsJsWhitespace` | components/Login.tsx:12 | The characters `\s` matches: ECMAScript whitespace and line terminators. Space, tab, line feed and carriage return are among them. `@`, `.` and the digits are not. |
| `Login.MatchesEmailPattern` | components/Login.tsx:12 | The language of the e-mail pattern, read off the pattern as three `[^\s@]+` runs joined by `@` and `.`. Each member has at least 5 characters, contains `@`, and neither starts nor ends with `@`. |
| `Login.IsValidEmail` | components/Login.tsx:12-14 | `emailRegex.test(email)` as an executable matcher that splits at the first `@`. Anything it accepts has at least 5 characters and neither starts nor ends with `@`. |
| `Login.IndexOf` | components/Login.tsx:12 | The position found holds the searched character and none occurs before it. `None` means the character does not occur. |
| `Login.MatcherSound` | components/Login.tsx:12 | Every string the executable matcher accepts is `local@host.tld` with three non-empty runs free of whitespace and `@`. |
| `Login.MatcherComplete` | components/Login.tsx:12 | Every `local@host.tld` built from three such runs is accepted by the matcher, even when host or tld contain further dots. |
| `Login.MatcherAgreesWithPattern` | components/Login.tsx:12 | The matcher accepts a string if and only if the string is in the pattern's language. |
| `Login.ValidateAndSubmit` | components/Login.tsx:11-24 | The outcome is InvalidEmail iff the e-mail does not match, whatever the password. It is InvalidPassword iff the e-mail matches and the password has fewer than 6 UTF-16 units, empty included. It is Success iff the e-mail matches and the password has at least 6 units, so exactly 6 is accepted. |
| `Login.OneAtSign` | components/Login.tsx:12 | A string of the pattern's language holds exactly one `@`. |
| `Login.NoWhitespace` | components/Login.tsx:12 | A string of the pattern's language holds no `\s` character. |
| `Login.AcceptedEmailShape` | components/Login.tsx:12-23 | An accepted e-mail holds exactly one `@` and no whitespace. The `@` is not first, and a later `.` is neither right after the `@` nor last. |
| `Login.TrailingDotAccepted` | components/Login.tsx:12-23 | The last run may contain dots, so `a@b.c.` with a 6-character password gives Success. |
| `Login.EmptyEmailRejected` | components/Login.tsx:14 | The empty e-mail gives InvalidEmail for every password. |
| `ImageUploader.UploaderScreen.constructor` | components/ImageUploader.tsx:29-31 | The screen starts with no image, no answer and not busy, and satisfies the invariant. |
| `ImageUploader.UploaderScreen.PickImage` | components/ImageUploader.tsx:33-45 | A cancelled pick changes nothing. A pick with no asset list, or an empty one, changes nothing. Otherwise `imageUri` becomes the first asset's URI, as delivered even if absent, and `response` is cleared. `loading` is never touched. The invariant is kept. |
| `ImageUploader.UploaderScreen.StartUpload` | components/ImageUploader.tsx:47-60 | A request is built iff `imageUri` is truthy, so null and the empty string are excluded. Without one, `loading` and `response` are unchanged. With one, `loading` is true and `response` is null, and the POST goes to `/upload` as multipart with a single `file` part: the URI, type `image/jpeg`, name `upload.jpg`. `imageUri` is unchanged. |
| `ImageUploader.UploaderScreen.FinishUpload` | components/ImageUploader.tsx:62-73 | On success `response` is the server's data. On failure `response` is untouched. Either way `loading` is false and `imageUri` is unchanged. |
| `ImageUploader.UploaderScreen.UploadImage` | components/ImageUploader.tsx:47-74 | A complete upload with no URI is a no-op. Otherwise it ends with `loading` false and `imageUri` unchanged. `response` ends as the data on success and as null on failure. |
| `SavedImages.DownloadUrl` | components/SavedImagesScreen.tsx:51-52 | The URL is the server's `/uploads/` prefix followed by exactly the file name, which can be read back from it. |
| `SavedImages.DeleteUrl` | components/SavedImagesScreen.tsx:69 | The URL is the server's `/images/` prefix followed by exactly the id. |
| `SavedImages.DownloadUrlInjective` | components/SavedImagesScreen.tsx:52 | Two file names with the same download URL are equal. |
| `SavedImages.DeleteUrlInjective` | components/SavedImagesScreen.tsx:41-69 | Two ids with the same delete URL are equal, and no delete URL is the list URL. |
| `SavedImages.DownloadUrlIsNotDeleteUrl` | components/SavedImagesScreen.tsx:51-69 | A download URL never equals a delete URL. |
| `SavedImages.TypeLabel` | components/SavedImagesScreen.tsx:85 | The label is "Document" iff the entry is a document, and "Image" iff it is not. |
| `SavedImages.DecimalText` | components/SavedImagesScreen.tsx:95 | A number is written as a non-empty string of decimal digits, with no leading zero, whose value is the number. |
| `SavedImages.ItemTitle` | components/SavedImagesScreen.tsx:95 | The heading is a digit string whose value is `index + 1` and that has no leading zero, followed by `. ` and the file name. |
| `SavedImages.ItemSubtitle` | components/SavedImagesScreen.tsx:96-98 | The subtitle is exactly the type label, then ` \| `, then the date text. It starts with "Document" iff the entry is a document, and with "Image" otherwise. |
| `SavedImages.DetailsMessage` | components/SavedImagesScreen.tsx:80-88 | The details text starts with `ID: ` and the id. |
| `SavedImages.DetailsMessageShowsType` | components/SavedImagesScreen.tsx:85 | Two entries that differ only in the document flag get different details texts. |
| `SavedImages.SavedImagesScreen.constructor` | components/SavedImagesScreen.tsx:24-25 | The screen starts with an empty list and not loading. |
| `SavedImages.SavedImagesScreen.StartFetch` | components/SavedImagesScreen.tsx:38-41 | Starting a fetch sets `loading`, sends GET to `/images` and leaves the list alone. |
| `SavedImages.SavedImagesScreen.FinishFetch` | components/SavedImagesScreen.tsx:40-48 | A response whose `data` is present replaces the list wholesale with its `images`, or with `[]` when that field is missing; an empty body arrives as `data === ""` and so clears the list. A failure, or a response whose `data` is null or undefined (reading `.images` throws), leaves the list unchanged. `loading` is false either way. |
| `SavedImages.SavedImagesScreen.FetchImages` | components/SavedImagesScreen.tsx:38-49 | A complete fetch sends one GET to `/images`, ends not loading, and replaces or keeps the list as `FinishFetch` states. |
| `SavedImages.SavedImagesScreen.DeleteImage` | components/SavedImagesScreen.tsx:61-78 | The list is never changed locally. Cancel sends nothing and changes nothing. A failed delete sends only the DELETE and leaves `loading` as it was. A successful delete sends the DELETE, then a GET of the whole list, and sets `loading`. |
| `HomePage.GalleryPermission` | components/HomePage.tsx:12 | The permission is READ_MEDIA_IMAGES when the library defines it as a truthy name, else READ_EXTERNAL_STORAGE. |
| `HomePage.RequestPermission` | components/HomePage.tsx:9-23 | A request is made iff the platform is Android, for the gallery permission with the gallery rationale. Access is reported iff the platform is not Android or the answer is `granted`. |
| `HomePage.HomeScreen.constructor` | components/HomePage.tsx:7 | The screen starts with no photos. |
| `HomePage.HomeScreen.LoadPhotos` | components/HomePage.tsx:25-32 | The permission step is exactly `RequestPermission`. The photo index is read iff access is reported, with a query for the first 10 photos of asset type Photos. A successful read replaces `photos` with the returned edges. Without access, or when the uncaught read rejects, `photos` is unchanged. |

## Left out

- `components/Logo.tsx` (animations and colour interpolation) and `App.tsx` (navigation stack) are not part of this model: they are visual effects and navigation configuration.
- Rendering is not modelled: JSX, style sheets, the list key extractors, `renderImage` on the home screen, the upload answer panel (`components/ImageUploader.tsx:91-113`) and navigation to the saved-images screen. Alert and console texts are reduced to outcome tags or left out.
- Network, picker, photo-index, permission-prompt and URL-opener calls are not modelled. Their results are parameters. `downloadImage` is modelled only as its URL: opening it, and the alert when that fails, are platform behaviour.
- Effect wiring is not modelled: the home screen's effect that re-runs `loadPhotos` on every render, and the saved-images screen's mount fetch and focus listener. They only decide when the modelled operations run.
- Interleavings of overlapping requests are not proved. Start and finish steps can be called in any order, and the upload invariant holds under every such order. No property is stated about which of two racing responses wins, because the source has no rule for it.
- HomePage.HomeScreen.LoadPhotos: the home screen also awaits, on the permission prompt and on the photo read (`components/HomePage.tsx:26,30`), but `LoadPhotos` is one step. Events that arrive during those waits, such as a second `loadPhotos` from a re-render, are not modelled.
- `confidence.toFixed(2)` and `toLocaleString()` (floating point and locale formatting) are not modelled. The upload date is carried as the text shown for it.
- SavedImages.ImageRecord: `is_document` is modelled as a boolean. Other truthy or falsy JSON values are not distinguished.
- SavedImages.SavedImagesScreen.FinishFetch: an `images` field that is present but not an array is not modelled.
- SavedImages.DownloadUrl: file names and ids are appended without URL encoding, as in the source. No property is claimed about reserved characters in them.
- SavedImages.DetailsMessage: only its opening line is specified. Its type line is covered by `DetailsMessageShowsType`. The filename and date lines are not stated separately.
- Login: `validateAndSubmit` reads the `email` and `password` state and never writes it. The model takes both as values, so it cannot change them.
- Login: the pattern runs on UTF-16 code units and the model runs on Unicode characters. A surrogate half is never whitespace, `@` or `.`, so both accept the same strings.
