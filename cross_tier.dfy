/**
 * Where the frontend's checks and the backend's disagree about the same input, and how a value
 * produced by one tier fares in the other's check.
 */
module CrossTier {
  import opened Wrappers
  import opened Calendar
  import opened Domain
  import opened FrontendTypes
  import Text
  import FileSystemStorage
  import PhotoService
  import RequestValidation
  import RestaurantService
  import ErrorController
  import FormSchema
  import AdminPage
  import RestaurantForm

  /** A whitespace-only name has the length the form asks for, but the backend finds it blank. */
  lemma WhitespaceNameSplitsTiers(name: string, request: CreateUpdateRequest, addressViolations: set<FieldError>)
    requires name != [] && forall i | 0 <= i < |name| :: Text.IsJavaTrimmable(name[i])
    requires request.name == Some(name) && request.address.None? && request.operatingHours.None?
    ensures FormSchema.MinLengthIssue("name", name, "Name is required") == {}
    ensures FieldError("name", RequestValidation.NameRequired) in RequestValidation.Violations(request, addressViolations)
  {
    Text.JavaTrimEmpty(name);
  }

  /** The form never looks at its photo list, while the backend refuses an empty photo id list. */
  lemma EmptyPhotoListSplitsTiers(form: FormSchema.FormData, request: CreateUpdateRequest, addressViolations: set<FieldError>)
    requires request.photoIds == Some([]) && request.address.None? && request.operatingHours.None?
    ensures FormSchema.SchemaIssues(form.(photos := [])) == FormSchema.SchemaIssues(form)
    ensures FieldError("photoIds", RequestValidation.PhotoIdsRequired) in RequestValidation.Violations(request, addressViolations)
  {
  }

  /** A file of exactly 5 MiB is refused by the admin page and passes the backend's size guard. */
  lemma ExactLimitSplitsTiers(picked: FileInfo, upload: FileSystemStorage.MultipartFile, cleanPath: string -> string)
    requires picked.size == 5 * 1024 * 1024 && |upload.content| == 5 * 1024 * 1024
    ensures AdminPage.FileIssues(picked) != [] && AdminPage.FileIssues(picked)[0] == AdminPage.FileTooLargeMessage
    ensures FileSystemStorage.Screen(upload, cleanPath) == FileSystemStorage.Screen(upload.(content := [0]), cleanPath)
  {
    FileSystemStorage.ExactLimitAccepted(upload, cleanPath);
  }

  /** A UUID, a '.', then three or four ASCII letters matches the admin page's file name pattern. */
  lemma UuidWithExtensionMatches(photoId: string, ext: string)
    requires PhotoService.IsUuid(photoId) && (|ext| == 3 || |ext| == 4)
    requires forall i | 0 <= i < |ext| :: Text.IsAsciiLetter(ext[i])
    ensures AdminPage.HasExtensionOfLength(photoId + "." + ext, |ext|)
  {
    var s := photoId + "." + ext;
    var n := |ext|;
    assert s[|s| - n - 1] == '.';
    forall i | |s| - n <= i < |s| ensures Text.IsAsciiLetter(s[i]) {
      assert s[i] == ext[i - 37];
    }
    forall i | 0 <= i < |s| - n - 1 ensures AdminPage.IsNameChar(s[i]) {
      assert s[i] == photoId[i];
      assert PhotoService.IsLowerHexDigit(photoId[i]) || photoId[i] == '-';
    }
  }

  /** Every name the photo service stores, a UUID and an allowed extension, passes the admin page's file name check. */
  lemma StoredNamesPassAdminCheck(photoId: string, upload: FileSystemStorage.MultipartFile, cleanPath: string -> string)
    requires PhotoService.IsUuid(photoId) && FileSystemStorage.Screen(upload, cleanPath).Success?
    ensures AdminPage.FilenameAccepted(photoId + "." + FileSystemStorage.Screen(upload, cleanPath).value)
  {
    var ext := FileSystemStorage.Screen(upload, cleanPath).value;
    AllowedExtensionsAreLetters(ext);
    UuidWithExtensionMatches(photoId, ext);
  }

  /** Each allowed extension is three or four ASCII letters. */
  lemma AllowedExtensionsAreLetters(ext: string)
    requires ext in FileSystemStorage.AllowedExtensions
    ensures (|ext| == 3 || |ext| == 4) && forall i | 0 <= i < |ext| :: Text.IsAsciiLetter(ext[i])
  {
    assert ext == "jpg" || ext == "jpeg" || ext == "png" || ext == "gif";
  }

  /** The form accepts any time strings for a day, such as "25:99", which the backend's pattern refuses. */
  lemma TimeFormatSplitsTiers(form: FormSchema.FormData, day: Weekday, close: string)
    requires FormSchema.DayOf(form, day) != Null
    ensures var changed := form.(operatingHours := form.operatingHours[day := Hours("25:99", close)]);
      FormSchema.SchemaIssues(changed) == FormSchema.SchemaIssues(form)
    ensures FieldError(RequestValidation.DayPath(day) + ".openTime", RequestValidation.OpenTimeFormat)
      in RequestValidation.TimeRangeViolations(RequestValidation.DayPath(day), TimeRange(Some("25:99"), Some(close)))
  {
    FormSchema.UncheckedFields(form, form.photos, form.address.unit, day, "25:99", close);
    assert form.(photos := form.photos, address := form.address.(unit := form.address.unit),
                 operatingHours := form.operatingHours[day := Hours("25:99", close)])
        == form.(operatingHours := form.operatingHours[day := Hours("25:99", close)]);
  }

  /**
   * A request without a photo id list passes validation, yet creating the restaurant dereferences
   * the list, and the error handler answers that with 500.
   */
  lemma NullPhotoIdsPassValidationThenFail(request: CreateUpdateRequest, location: GeoLocation, clock: nat -> Instant, addressViolations: set<FieldError>)
    requires request.photoIds.None? && request.address.None? && request.operatingHours.None?
    ensures FieldError("photoIds", RequestValidation.PhotoIdsRequired) !in RequestValidation.Violations(request, addressViolations)
    ensures RestaurantService.NewRestaurant(request, location, clock) == Failure(NullPointer)
    ensures ErrorController.HandleException(NullPointer).httpStatus == 500
  {
  }

  /**
   * Clearing the open time of a day with no close time turns the day to `null`, which the form's
   * own schema then refuses.
   */
  lemma ClearedDayRefusedByForm(form: FormSchema.FormData, day: Weekday)
    requires var current := FormSchema.DayOf(form, day); !current.Hours? || current.closeTime == ""
    ensures var cleared := RestaurantForm.OnOpenTimeChange("", FormSchema.DayOf(form, day));
      && cleared == Null
      && FormSchema.Issue("operatingHours." + DayKey(day), FormSchema.NullDayMessage)
           in FormSchema.SchemaIssues(form.(operatingHours := form.operatingHours[day := cleared]))
  {
    var changed := form.(operatingHours := form.operatingHours[day := Null]);
    FormSchema.NullDayRejected(changed, day);
  }
}
