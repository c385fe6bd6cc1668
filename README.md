# Restaurant reviews: a Dafny model of the service core and the web client's state rules

The system is a restaurant-review application. A Spring backend keeps restaurants in a search
index, stores uploaded photos on the local file system, validates request bodies and maps
exceptions to HTTP responses. A Next.js client searches and pages through restaurants, edits
them in a form and uploads and retrieves photos.

This project models:

- the backend's restaurant service: search dispatch, create, read, update and delete;
- the photo service and the file-system storage: every upload guard in order, the
  path-traversal check, the copy and the lookup;
- the bean-validation constraints of the create/update request;
- the central exception handler;
- the client's pagination window, search bar, photo-list helpers, form handlers, form schema,
  admin-page checks and restaurant card.

It proves what each of these does:

- which repository query a search issues, and where that differs from the method's documentation;
- which upload is refused with which message, that a refused upload stores nothing, and that a
  stored photo lands in the root and can be found again;
- which requests pass validation;
- which status each exception gets;
- the shape of the pagination window;
- what a removal does to the photo lists;
- where the client's checks and the server's disagree about the same input.

Java and JavaScript library behaviour that the code relies on is written out in `Text` and `Paths`:

- `String.trim` and `isBlank`, JavaScript `trim`, the regular-expression classes;
- `lastIndexOf`, `Collectors.joining`;
- `java.nio.file` parsing, resolution, normalization and `startsWith` on a Unix file system.

Where the code and its own documentation disagree, the model follows the code:

- The search dispatch's precedence differs from its Javadoc. `RestaurantService.DocumentedSearch`
  states the documented order, and `SearchDivergesFromDocumentation` characterises the inputs on
  which the two orders disagree.
- `updateRestaurant` assigns the cuisine type to itself, and `createRestaurant` never sets it.
  Both are modelled as written.
- The validation-error builder in `ErrorController` carries no `@ExceptionHandler`, so a failed
  validation is answered by the catch-all with 500, not with 400.
- `loadAsResource` is documented as returning empty for a name it cannot read. For a name with a
  NUL character, however, `Path.resolve` throws `InvalidPathException`, which is not caught; the
  model returns that error.

Status codes are those of RFC 9110:

- 400 is section 15.5.1;
- 404 is section 15.5.5;
- 500 is section 15.6.1.

## Model

| member | source | states |
|---|---|---|
| Text.JavaTrimEmpty | backend/restaurant/src/main/java/com/maxeagan/restaurant/services/impl/RestaurantServiceImpl.java:109 | `s.trim().isEmpty()` holds exactly when every character of `s` is at most U+0020 |
| Text.JsTrimEmpty | frontend/src/app/admin/page.tsx:105 | `!filename.trim()` holds exactly when every character is JavaScript white space |
| Text.LastIndexOf | backend/restaurant/src/main/java/com/maxeagan/restaurant/services/impl/FileSystemStorageService.java:89 | the result is -1 or an index holding the character, and no later index holds it |
| Text.JoinSnoc | backend/restaurant/src/main/java/com/maxeagan/restaurant/controllers/ErrorController.java:78-94 | joining with a separator is order-preserving: one more part appends the separator and that part |
| Paths.Parse | backend/restaurant/src/main/java/com/maxeagan/restaurant/services/impl/FileSystemStorageService.java:103 | a name parses exactly when it holds no NUL character |
| Paths.SegmentsAreNames | backend/restaurant/src/main/java/com/maxeagan/restaurant/services/impl/FileSystemStorageService.java:103 | every name a parsed path holds is non-empty and free of '/' |
| Paths.SegmentsOfName | backend/restaurant/src/main/java/com/maxeagan/restaurant/services/impl/FileSystemStorageService.java:102-103 | a string without '/' parses to exactly one name |
| Paths.NormalizeNamesIsNormal | backend/restaurant/src/main/java/com/maxeagan/restaurant/services/impl/FileSystemStorageService.java:103 | folding names into a normal prefix keeps it normal (no ".", no ".." after a real name, none in an absolute path) |
| Paths.NormalizeIsNormal | backend/restaurant/src/main/java/com/maxeagan/restaurant/services/impl/FileSystemStorageService.java:56 | `normalize()` always yields a normal path |
| Paths.NormalizePlainNames | backend/restaurant/src/main/java/com/maxeagan/restaurant/services/impl/FileSystemStorageService.java:103 | names that are neither "." nor ".." pass through normalization unchanged |
| Paths.NormalizeNormal | backend/restaurant/src/main/java/com/maxeagan/restaurant/services/impl/FileSystemStorageService.java:56 | normalization is the identity on absolute normal paths, so normalizing twice changes nothing |
| ErrorController.HandleException | backend/restaurant/src/main/java/com/maxeagan/restaurant/controllers/ErrorController.java:30-130 | the body repeats the status; 404 exactly for a missing restaurant; 400 exactly for a refused review; 500 otherwise; storage failures get the storage message and everything unhandled the generic one |
| ErrorController.ValidationResponse | backend/restaurant/src/main/java/com/maxeagan/restaurant/controllers/ErrorController.java:78-94 | the unregistered builder would answer 400 with the same status in the body |
| ErrorController.ValidationMessageOfFew | backend/restaurant/src/main/java/com/maxeagan/restaurant/controllers/ErrorController.java:80-87 | no errors give an empty message; one error gives exactly "field: message" |
| ErrorController.ValidationMessageAppends | backend/restaurant/src/main/java/com/maxeagan/restaurant/controllers/ErrorController.java:80-87 | the message lists the errors in order, separated by ", " |
| ErrorController.ValidationFailureIsAnsweredWith500 | backend/restaurant/src/main/java/com/maxeagan/restaurant/controllers/ErrorController.java:78-130 | a validation failure reaches the catch-all and gets 500 with the generic message, although the builder would give 400 |
| FileSystemStorage.FilenameExtension | backend/restaurant/src/main/java/com/maxeagan/restaurant/services/impl/FileSystemStorageService.java:89-91 | the extension holds no '.' or '/' and the name is its stem, '.', then the extension; there is none when no '.' follows the last '/' |
| FileSystemStorage.Screen | backend/restaurant/src/main/java/com/maxeagan/restaurant/services/impl/FileSystemStorageService.java:75-100 | an accepted upload is non-empty, at most 5 MiB, has a non-blank cleaned name, an allowed lower-cased extension (the result) and an "image/" content type, and every upload meeting all of these is accepted; every refusal is a storage exception |
| FileSystemStorage.Place | backend/restaurant/src/main/java/com/maxeagan/restaurant/services/impl/FileSystemStorageService.java:102-107 | an accepted destination is the normalized resolution of the name and lies under the root; a refusal is either a NUL in the name or a destination outside the root |
| FileSystemStorage.Plan | backend/restaurant/src/main/java/com/maxeagan/restaurant/services/impl/FileSystemStorageService.java:75-107 | the upload guards run before the destination guard: a refused upload passes its exception through, an accepted one is placed as `<fileName>.<extension>` under the root |
| FileSystemStorage.Ancestors | backend/restaurant/src/main/java/com/maxeagan/restaurant/services/impl/FileSystemStorageService.java:58 | creating the directories creates the root itself and the file-system root |
| FileSystemStorage.Storage.Init | backend/restaurant/src/main/java/com/maxeagan/restaurant/services/impl/FileSystemStorageService.java:54-64 | the root becomes the configured location made absolute and normalized, even when creating it fails; success creates it and its ancestors, failure raises the initialization error; files are untouched |
| FileSystemStorage.Storage.Store | backend/restaurant/src/main/java/com/maxeagan/restaurant/services/impl/FileSystemStorageService.java:75-117 | any failed guard or failed copy leaves files and directories as they were; the copy succeeds exactly when the I/O succeeds, the parent is a directory and the target is absent, a file or an empty directory, and then the target becomes a file holding the upload, `<fileName>.<ext>` is returned and the name is found by the lookup |
| FileSystemStorage.Storage.LoadAsResource | backend/restaurant/src/main/java/com/maxeagan/restaurant/services/impl/FileSystemStorageService.java:125-141 | fails exactly for a name with NUL; otherwise a resource is returned exactly when a file or directory exists where the name resolves, and it is the un-normalized `root.resolve(name)` |
| FileSystemStorage.EmptyFileRejectedFirst | backend/restaurant/src/main/java/com/maxeagan/restaurant/services/impl/FileSystemStorageService.java:76-78 | an empty upload is refused with the empty-file message whatever else it carries |
| FileSystemStorage.TooLargeRejected | backend/restaurant/src/main/java/com/maxeagan/restaurant/services/impl/FileSystemStorageService.java:80-82 | more than 5 MiB is refused with "File too large. Max size is 5MB" |
| FileSystemStorage.ExactLimitAccepted | backend/restaurant/src/main/java/com/maxeagan/restaurant/services/impl/FileSystemStorageService.java:80-82 | the limit is inclusive: a 5 MiB upload is judged like a one-byte one |
| FileSystemStorage.BlankNameRejected | backend/restaurant/src/main/java/com/maxeagan/restaurant/services/impl/FileSystemStorageService.java:84-87 | a null or blank cleaned file name is refused once the size passes |
| FileSystemStorage.ExtensionGuard | backend/restaurant/src/main/java/com/maxeagan/restaurant/services/impl/FileSystemStorageService.java:89-95 | no extension gives "Missing file extension"; a lower-cased extension outside jpg, jpeg, png, gif gives "Unsupported file type: <ext>" |
| FileSystemStorage.ContentTypeGuard | backend/restaurant/src/main/java/com/maxeagan/restaurant/services/impl/FileSystemStorageService.java:97-100 | a null content type, or one not starting with "image/", is refused after the extension checks, the message showing "null" for a null type |
| FileSystemStorage.SegmentsOfParentName | backend/restaurant/src/main/java/com/maxeagan/restaurant/services/impl/FileSystemStorageService.java:103 | "../<name>" parses to the names "..", name |
| FileSystemStorage.ParentNameLocated | backend/restaurant/src/main/java/com/maxeagan/restaurant/services/impl/FileSystemStorageService.java:103 | "../<name>" under "/srv/uploads" lands at "/srv/<name>" |
| FileSystemStorage.EscapingNameRejected | backend/restaurant/src/main/java/com/maxeagan/restaurant/services/impl/FileSystemStorageService.java:102-107 | a desired name climbing out of the root is refused as "outside the configured directory" |
| FileSystemStorage.PlainNamePlacedInRoot | backend/restaurant/src/main/java/com/maxeagan/restaurant/services/impl/FileSystemStorageService.java:102-107 | a single plain name lands directly in the root |
| FileSystemStorage.PlainNameStoredInRoot | backend/restaurant/src/main/java/com/maxeagan/restaurant/services/impl/FileSystemStorageService.java:75-107 | an accepted upload under a name without '/' or NUL is planned at `<root>/<name>.<ext>` |
| FileSystemStorage.LoadMayLeaveRoot | backend/restaurant/src/main/java/com/maxeagan/restaurant/services/impl/FileSystemStorageService.java:125-133 | the lookup does not confine names to the root: "../secret" finds a file beside it |
| PhotoService.UploadPhoto | backend/restaurant/src/main/java/com/maxeagan/restaurant/services/impl/PhotoServiceImpl.java:34-42 | the photo's URL is `<uuid>.<ext>` with the given upload date; it succeeds exactly when the upload passes and the root-level target is writable; the file lands in the root (replacing an empty directory of that name) and is retrievable by its URL; a failure stores nothing |
| PhotoService.GetPhotoAsResource | backend/restaurant/src/main/java/com/maxeagan/restaurant/services/impl/PhotoServiceImpl.java:51-53 | the storage lookup of the id, failing exactly for a NUL in it |
| RestaurantService.SearchRestaurants | backend/restaurant/src/main/java/com/maxeagan/restaurant/services/impl/RestaurantServiceImpl.java:102-125 | fuzzy search exactly when the query has non-whitespace text (minimum rating 0 by default); else geo search exactly when all three geo values are given; else rating filter when a rating is given; else everything |
| RestaurantService.DocumentedSearch | backend/restaurant/src/main/java/com/maxeagan/restaurant/services/impl/RestaurantServiceImpl.java:82-92 | the documented precedence: a rating with no query text filters by rating; a non-empty query searches fuzzily |
| RestaurantService.SearchDivergesFromDocumentation | backend/restaurant/src/main/java/com/maxeagan/restaurant/services/impl/RestaurantServiceImpl.java:82-125 | code and documentation disagree exactly on a whitespace-only query and on a rating given with a full geo triple and no query text |
| RestaurantService.QueryTextOverridesFilters | backend/restaurant/src/main/java/com/maxeagan/restaurant/services/impl/RestaurantServiceImpl.java:109-112 | with query text, the geo parameters make no difference |
| RestaurantService.PhotosFor | backend/restaurant/src/main/java/com/maxeagan/restaurant/services/impl/RestaurantServiceImpl.java:58-63 | one photo per id |
| RestaurantService.PhotoUrlsAreIds | backend/restaurant/src/main/java/com/maxeagan/restaurant/services/impl/RestaurantServiceImpl.java:58-63 | the photos' URLs are the request's ids, in order |
| RestaurantService.NewRestaurant | backend/restaurant/src/main/java/com/maxeagan/restaurant/services/impl/RestaurantServiceImpl.java:53-76 | fails with a null-pointer error exactly when the photo id list is null |
| RestaurantService.UpdatedRestaurant | backend/restaurant/src/main/java/com/maxeagan/restaurant/services/impl/RestaurantServiceImpl.java:158-173 | fails with a null-pointer error exactly when the photo id list is null |
| RestaurantService.CreatedRestaurantContents | backend/restaurant/src/main/java/com/maxeagan/restaurant/services/impl/RestaurantServiceImpl.java:53-76 | a created restaurant carries the request's name, contact, address, hours, the located point and photos for the ids; no cuisine type, rating 0, null reviews and no creator |
| RestaurantService.UpdateKeepsIdentity | backend/restaurant/src/main/java/com/maxeagan/restaurant/services/impl/RestaurantServiceImpl.java:155-173 | an update keeps id, cuisine type, rating, reviews and creator, takes name, contact, address, hours and photo URLs from the request, and the geolocation becomes the located point |
| RestaurantService.UpdateIdempotent | backend/restaurant/src/main/java/com/maxeagan/restaurant/services/impl/RestaurantServiceImpl.java:151-177 | the same update applied twice equals it applied once |
| RestaurantService.UpdateAfterCreateIsNoOp | backend/restaurant/src/main/java/com/maxeagan/restaurant/services/impl/RestaurantServiceImpl.java:53-177 | updating a created restaurant with its own request changes nothing |
| RestaurantService.RestaurantService.GetRestaurant | backend/restaurant/src/main/java/com/maxeagan/restaurant/services/impl/RestaurantServiceImpl.java:135-137 | found exactly when stored, and the found restaurant carries the requested id |
| RestaurantService.RestaurantService.CreateRestaurant | backend/restaurant/src/main/java/com/maxeagan/restaurant/services/impl/RestaurantServiceImpl.java:53-76 | saves the new restaurant under the id the search engine assigns, which then reads it back; a null id list stores nothing; ids stay consistent |
| RestaurantService.RestaurantService.UpdateRestaurant | backend/restaurant/src/main/java/com/maxeagan/restaurant/services/impl/RestaurantServiceImpl.java:151-177 | an unknown id raises "Restaurant with this ID does not exist: <id>" and changes nothing; otherwise only that restaurant is replaced by its update |
| RestaurantService.RestaurantService.DeleteRestaurant | backend/restaurant/src/main/java/com/maxeagan/restaurant/services/impl/RestaurantServiceImpl.java:180-182 | removes the id if present, with no error when absent; afterwards it is not found |
| RequestValidation.Digit | backend/restaurant/src/main/java/com/maxeagan/restaurant/domain/dtos/TimeRangeDto.java:21-27 | the character is a decimal digit of the given value |
| RequestValidation.TimePatternMeaning | backend/restaurant/src/main/java/com/maxeagan/restaurant/domain/dtos/TimeRangeDto.java:21-27 | the time pattern accepts exactly the times 0:00 to 23:59, the hour with or without a leading zero |
| RequestValidation.TimePatternExamples | backend/restaurant/src/main/java/com/maxeagan/restaurant/domain/dtos/TimeRangeDto.java:21-27 | "8:30" and "08:30" match; "24:00", "12:5" and "12:60" do not |
| RequestValidation.RenderedTimeMatches | backend/restaurant/src/main/java/com/maxeagan/restaurant/domain/dtos/TimeRangeDto.java:21-27 | every time of day, written either way, matches the pattern |
| RequestValidation.TimeViolations | backend/restaurant/src/main/java/com/maxeagan/restaurant/domain/dtos/TimeRangeDto.java:21-27 | one time is reported as missing exactly when null or blank and as malformed exactly when present and not matching |
| RequestValidation.TimeValid | backend/restaurant/src/main/java/com/maxeagan/restaurant/domain/dtos/TimeRangeDto.java:21-27 | one time passes exactly when it is present and matches the pattern |
| RequestValidation.TimeRangeViolations | backend/restaurant/src/main/java/com/maxeagan/restaurant/domain/dtos/TimeRangeDto.java:19-28 | each time is reported as missing exactly when null or blank and as malformed exactly when present and not matching |
| RequestValidation.TimeRangeValid | backend/restaurant/src/main/java/com/maxeagan/restaurant/domain/dtos/TimeRangeDto.java:19-28 | a range is valid exactly when both times match the pattern |
| RequestValidation.MatchingTimeNotBlank | backend/restaurant/src/main/java/com/maxeagan/restaurant/domain/dtos/TimeRangeDto.java:21-27 | a matching time is never blank, so the pattern implies the not-blank constraint |
| RequestValidation.MissingAndBlankTimes | backend/restaurant/src/main/java/com/maxeagan/restaurant/domain/dtos/TimeRangeDto.java:21-23 | a null open time is reported once, a blank one twice (missing and malformed) |
| RequestValidation.OpenAfterCloseAccepted | backend/restaurant/src/main/java/com/maxeagan/restaurant/domain/dtos/TimeRangeDto.java:19-28 | no cross-field rule: "23:00" to "01:00" is valid |
| RequestValidation.FieldViolations | backend/restaurant/src/main/java/com/maxeagan/restaurant/domain/dtos/RestaurantCreateUpdateRequestDto.java:31-67 | name, cuisine type and contact are reported exactly when blank and photo ids exactly when an empty list; nothing is reported exactly when all four hold |
| RequestValidation.Violations | backend/restaurant/src/main/java/com/maxeagan/restaurant/domain/dtos/RestaurantCreateUpdateRequestDto.java:31-67 | the request's own field violations are always reported, and so are a given address's; without address and hours they are all there is |
| RequestValidation.ValidExactlyWhenWellFormed | backend/restaurant/src/main/java/com/maxeagan/restaurant/domain/dtos/RestaurantCreateUpdateRequestDto.java:31-67 | a request has no violation exactly when its strings are non-blank, its photo id list is null or non-empty, its address is valid and every given day has two well-formed times |
| HomePage.SmallWindowListsEveryPage | frontend/src/app/page.tsx:109-113 | up to five pages, the bar lists every page in order |
| HomePage.LargeWindowShape | frontend/src/app/page.tsx:114-137 | past five pages the bar starts at 1, ends at the last page, increases strictly, stays in range and has 3 to 7 entries |
| HomePage.WindowEllipses | frontend/src/app/page.tsx:114-137 | the bar lists the current page; an ellipsis follows page 1 exactly when the page is past 3, and precedes the last exactly when it is before total-2 |
| HomePage.RequestedPage | frontend/src/app/page.tsx:63 | a missing or zero target falls back to the current page |
| HomePage.Home.constructor | frontend/src/app/page.tsx:31-44 | the initial state: loading, page 1, no results and no page count |
| HomePage.Home.GetPageNumbers | frontend/src/app/page.tsx:103-140 | the loop builds exactly the pagination window |
| HomePage.Home.SearchRestaurants | frontend/src/app/page.tsx:53-84 | remembers the parameters, requests the target page (the current one when the target is missing or 0) with size 8 when the API exists, takes over the answer's page data, and ends not loading |
| HomePage.Home.HandlePageChange | frontend/src/app/page.tsx:92-95 | shows the new page and requests it with the last search's parameters (a page of 0 requests the old page); a response replaces the results and page flags, no response leaves them, and loading ends |
| PhotoHelpers.WithoutIndexSplices | frontend/src/lib/photoHelpers.ts:48-57 | filtering out index k removes exactly that element when it exists and nothing otherwise |
| PhotoHelpers.MergePhotoIds | frontend/src/lib/photoHelpers.ts:25-31 | the existing photos' URLs in order, then the new URLs |
| PhotoHelpers.RemovePhotoByIndexEffect | frontend/src/lib/photoHelpers.ts:36-60 | the preview at the index goes; an index within the existing photos removes that photo, a later one the new image at the adjusted index; a negative index removes nothing |
| PhotoHelpers.RemoveOutOfRangeIsNoOp | frontend/src/lib/photoHelpers.ts:36-60 | an index outside every list changes nothing |
| PhotoHelpers.RemoveKeepsPreviewsAligned | frontend/src/lib/photoHelpers.ts:36-60 | when previews line up with existing photos plus new images, a removal keeps them lined up and removes one preview |
| RestaurantForm.OnOpenTimeChange | frontend/src/components/CreateRestaurantForm.tsx:215-239 | a value opens the day keeping its close time; clearing gives null unless a close time remains, which is kept |
| RestaurantForm.CloseRuleMirrorsOpenRule | frontend/src/components/CreateRestaurantForm.tsx:215-274 | the close-time rule is the open-time rule with the two times exchanged |
| RestaurantForm.TimeRulesNeverLeaveEmptyHours | frontend/src/components/CreateRestaurantForm.tsx:215-274 | after either input changes, the day is null or has at least one time |
| RestaurantForm.Form.constructor | frontend/src/components/CreateRestaurantForm.tsx:64-72 | the form starts with its photo ids and hours and no previews |
| RestaurantForm.Form.LoadExistingPreviews | frontend/src/components/CreateRestaurantForm.tsx:64-72 | existing photo ids are previewed as "/api/photos/<id>" each, in order |
| RestaurantForm.Form.HandleFileChange | frontend/src/components/CreateRestaurantForm.tsx:81-98 | when every upload resolves, uploaded URLs follow the existing ids and local previews follow the existing previews, in pick order; when any upload rejects, neither list changes; aligned lists stay aligned |
| RestaurantForm.Form.HandleRemovePhoto | frontend/src/components/CreateRestaurantForm.tsx:106-122 | the same index leaves previews and ids; aligned lists stay aligned; a "blob:" preview is revoked |
| RestaurantForm.Form.SetOpenTime | frontend/src/components/CreateRestaurantForm.tsx:215-239 | only the changed day's hours change, by the open-time rule |
| RestaurantForm.Form.SetCloseTime | frontend/src/components/CreateRestaurantForm.tsx:250-274 | only the changed day's hours change, by the close-time rule |
| SearchBar.Toggled | frontend/src/components/RestaurantSearch.tsx:56-75 | clicking a rating selects it exactly when it was not selected, and clears the filter otherwise |
| SearchBar.ToggleTwice | frontend/src/components/RestaurantSearch.tsx:56-75 | two clicks on one button restore a selected filter and clear any other |
| SearchBar.SearchBox.constructor | frontend/src/components/RestaurantSearch.tsx:38-39 | an empty query and no rating filter |
| SearchBar.SearchBox.SetQuery | frontend/src/components/RestaurantSearch.tsx:38 | the query becomes the typed text |
| SearchBar.SearchBox.HandleSearch | frontend/src/components/RestaurantSearch.tsx:44-49 | searches with the current text and filter |
| SearchBar.SearchBox.HandleMinRatingFilter | frontend/src/components/RestaurantSearch.tsx:56-75 | toggles the filter and searches with it; the clicked button's highlight flips and no other is highlighted |
| SearchBar.AtMostOneHighlighted | frontend/src/components/RestaurantSearch.tsx:93-111 | at most one of the 2+, 3+, 4+ buttons is highlighted |
| FormSchema.SchemaAcceptsExactly | frontend/src/schemas/restuarant.ts:7-79 | the form parses exactly when its required strings are non-empty and no day is null |
| FormSchema.NullDayRejected | frontend/src/schemas/restuarant.ts:32-75 | a null day is reported under its own key |
| FormSchema.UncheckedFields | frontend/src/schemas/restuarant.ts:18-78 | the photo list, the unit and the time strings never change what the schema reports |
| AdminPage.FileIssues | frontend/src/app/admin/page.tsx:13-16 | a file passes exactly when under 5 MiB with an "image/" type; the first issue is the size one when both fail |
| AdminPage.FilenamePatternShape | frontend/src/app/admin/page.tsx:24-27 | a matching name holds exactly one '.', before a 3- or 4-letter extension, so the length check adds nothing |
| AdminPage.Admin.constructor | frontend/src/app/admin/page.tsx:54-127 | nothing selected, retrieved or reported |
| AdminPage.Admin.HandleFileSelect | frontend/src/app/admin/page.tsx:54-71 | clears the last response; an unacceptable file is dropped with its first issue shown, an acceptable one selected |
| AdminPage.Admin.HandleRetrievePhoto | frontend/src/app/admin/page.tsx:104-127 | a blank name does nothing; a malformed one reports "Invalid filename format." without a request; otherwise "/api/photos/<name>" is fetched and its image or error shown |
| RestaurantCard.GetImage | frontend/src/components/RestaurantCard.tsx:17-21 | the first photo's served URL exactly when there is a first photo with a non-empty URL; the placeholder otherwise |
| RestaurantCard.RatingStars | frontend/src/components/RestaurantCard.tsx:27-42 | always five stars |
| RestaurantCard.FilledPrefix | frontend/src/components/RestaurantCard.tsx:31-35 | stars filled below k number k, clipped to the row |
| RestaurantCard.FilledStars | frontend/src/components/RestaurantCard.tsx:27-42 | the number of filled stars is the rating rounded down, clipped to 0..5 |
| RestaurantCard.CardStars | frontend/src/components/RestaurantCard.tsx:92 | a missing average rating fills no star |
| CrossTier.WhitespaceNameSplitsTiers | frontend/src/schemas/restuarant.ts:9 | a whitespace name passes the form's length check and fails the backend's not-blank check |
| CrossTier.EmptyPhotoListSplitsTiers | backend/restaurant/src/main/java/com/maxeagan/restaurant/domain/dtos/RestaurantCreateUpdateRequestDto.java:66-67 | the form ignores the photo list; the backend refuses an empty one |
| CrossTier.ExactLimitSplitsTiers | frontend/src/app/admin/page.tsx:15 | exactly 5 MiB is refused by the admin page and passes the backend's size guard |
| CrossTier.UuidWithExtensionMatches | frontend/src/app/admin/page.tsx:24-27 | a UUID, a '.', then three or four letters fits the pattern's name and extension parts |
| CrossTier.StoredNamesPassAdminCheck | frontend/src/app/admin/page.tsx:24-27 | every name the photo service stores passes the admin page's file name check |
| CrossTier.TimeFormatSplitsTiers | frontend/src/schemas/restuarant.ts:32-75 | the form accepts "25:99", which the backend's time pattern refuses |
| CrossTier.NullPhotoIdsPassValidationThenFail | backend/restaurant/src/main/java/com/maxeagan/restaurant/services/impl/RestaurantServiceImpl.java:58 | a null photo id list passes validation, then creation dereferences it and the answer is 500 |
| CrossTier.ClearedDayRefusedByForm | frontend/src/components/CreateRestaurantForm.tsx:226-232 | clearing the open time of a day with no close time makes it null, which the form's own schema refuses |

## Left out

- Geolocation: the geolocation service is a parameter. The source's implementation draws a random point.
- Repository queries: a search is modelled by the query it issues. Fuzzy matching, geo distance and paging belong to the search engine.
- The review service, the controllers, the DTO mappers, authentication and the security configuration are not part of this model.
- The controller's conversion of 1-based pages to 0-based ones is not part of this model.
- The HTTP client, the Axios service and the network are not modelled. A fetch's outcome is a parameter.
- `StringUtils.cleanPath` is a parameter.
- The address DTO's own constraints are not part of this model. Their violations are the parameter `addressViolations`.
- The file system is lexical: there are no symbolic links, permissions or partial writes. The outcome of each I/O call is a boolean parameter.
- UUIDs, clocks and object (blob) URLs are parameters.
- Logging is not modelled.
- Asynchronous interleaving of React state updates is not modelled: each handler is one atomic step. Stale closures are not modelled either, except in HomePage.Home.HandlePageChange, whose search reads the page from before the change.
- Floats are `real`; Java `Float` rounding is not modelled.
- The upload handler of the admin page (`handleUpload`) and the review components are not modelled.
- Text.ToLower: only ASCII letters are lower-cased, as under a non-Turkish default locale. Java's `toLowerCase` also folds other scripts, which cannot change whether the result is one of the four ASCII extensions; under a Turkish default locale "GIF" lower-cases to a dotless-i string and is refused, which the model does not capture.
- RestaurantForm.Form.HandleRemovePhoto: requires an index inside the previews. For an out-of-range index the source updates both lists and then throws a TypeError on the missing preview; that throw is not modelled.
- FileSystemStorage.Storage.Store: a failed copy leaves the files as they were. `Files.copy(..., REPLACE_EXISTING)` deletes an existing target before writing the new file, so an I/O failure after that deletion loses the old file; the model does not capture that case.
- RestaurantService.RestaurantService.CreateRestaurant: the new id is a parameter and is not required to be unused; the search engine's generated ids never collide, which the model does not capture, so a create with a stored id overwrites that entry.
- FileSystemStorage.Storage.LoadAsResource: "exists or readable" is modelled as "a file or directory exists at the normalized target". Readability is not modelled, and the lookup is lexical: a name like `missing/../x.png` is found when `x.png` exists, although the operating system refuses to walk through a missing or non-directory `missing`.
